/**
 The run predictor of src/utils/cron.js. Times are milliseconds; a time zone is two oracles,
 one per Intl formatter of the source: the wall clock of an instant, as a count of local
 minutes, and the offset it displays, in milliseconds.
 */
module NextRuns {
  import opened Calendar
  import opened Cron
  import opened MinuteScan
  import opened Wrappers

  datatype Zone = Zone(wall: int -> int, offset: int -> int)

  /** A zone whose offset never changes. */
  ghost predicate Fixed(zone: Zone, o: int) {
    forall t :: zone.offset(t) == o && zone.wall(t) == (t + o) / 60000
  }

  /** What zoneParts reads off a wall clock. */
  datatype Parts = Parts(date: Date, h: int, mi: int)

  function PartsOf(wall: int): Parts {
    Parts(Civil(wall / 1440), wall % 1440 / 60, wall % 60)
  }

  function DayMatches(spec: Spec, dom: int, wd: int): bool {
    var domOk := spec.doms.None? || dom in spec.doms.value;
    var dowOk := spec.dows.None? || wd in spec.dows.value;
    if spec.doms.Some? && spec.dows.Some? then domOk || dowOk else domOk && dowOk
  }

  predicate MatchesDay(spec: Spec, day: int) {
    Civil(day).mo in spec.months && DayMatches(spec, Civil(day).d, Weekday(day))
  }

  /** The reference: does this one local minute match the schedule. */
  predicate MatchesMinute(spec: Spec, m: int) {
    MatchesDay(spec, m / 1440) && m % 1440 / 60 in spec.hours && m % 60 in spec.minutes
  }

  function Hits(spec: Spec): int -> bool { m => MatchesMinute(spec, m) }

  function Horizon(now: int): int { now + 368 * 86400000 }

  // ------------------------------------------------------------ what a schedule means

  /** With a day field left open, a local minute matches when each of the five fields holds its part of it. */
  lemma EveryFieldMatches(spec: Spec, m: int)
    requires spec.doms.None? || spec.dows.None?
    ensures Hits(spec)(m) <==>
      && m % 60 in spec.minutes && m / 60 % 24 in spec.hours && Civil(m / 1440).mo in spec.months
      && (spec.doms.Some? ==> Civil(m / 1440).d in spec.doms.value)
      && (spec.dows.Some? ==> Weekday(m / 1440) in spec.dows.value)
  {
    var q, r := m / 1440, m % 1440;
    Div60(m, q * 24 + r / 60, r % 60);
    assert m / 60 % 24 == r / 60;
  }

  /** With both day fields restricted, it matches when it does with either of them alone. */
  lemma EitherDayMatches(spec: Spec, m: int)
    requires spec.doms.Some? && spec.dows.Some?
    ensures Hits(spec)(m) <==> Hits(spec.(doms := None))(m) || Hits(spec.(dows := None))(m)
  {
  }

  const MONDAYS_AND_FIRSTS := Spec({0}, {0}, Some({1}), {1, 2, 3, 4, 5, 6, 7, 8, 9, 10, 11, 12}, Some({1}))

  lemma MidnightHits(date: Date)
    requires ValidDate(date)
    ensures Hits(MONDAYS_AND_FIRSTS)(DayNumber(date) * 1440) <==>
      date.d == 1 || (DayNumber(date) + 4) % 7 == 1
  {
    CivilOfDayNumber(date);
    WholeDay(DayNumber(date), 0, 0);
    assert 1 <= date.mo <= 12;
  }

  /** Midnight of the 1st and of every Monday: Monday 8 January 2024 is a run, Tuesday 9 January is none. */
  lemma MondayOrTheFirst()
    ensures Hits(MONDAYS_AND_FIRSTS)(DayNumber(Date(2024, 1, 8)) * 1440)
    ensures !Hits(MONDAYS_AND_FIRSTS)(DayNumber(Date(2024, 1, 9)) * 1440)
  {
    MidnightHits(Date(2024, 1, 8));
    MidnightHits(Date(2024, 1, 9));
    assert DayNumber(Date(2024, 1, 8)) == 19730 && DayNumber(Date(2024, 1, 9)) == 19731;
  }

  // ------------------------------------------------------------ sorting the field sets

  /** [...values].sort((a, b) => a - b) */
  function Sorted(values: set<int>, lo: int, hi: int): (r: seq<int>)
    ensures Ascending(r)
    ensures forall v :: v in r <==> v in values && lo <= v <= hi
    decreases hi - lo
  {
    if lo > hi then []
    else if lo in values then
      var rest := Sorted(values, lo + 1, hi);
      assert forall i :: 0 <= i < |rest| ==> rest[i] in rest;
      [lo] + rest
    else Sorted(values, lo + 1, hi)
  }

  method SortField(values: set<int>, lo: int, hi: int) returns (xs: seq<int>)
    ensures Ascending(xs)
    ensures forall v :: v in xs <==> v in values && lo <= v <= hi
  {
    xs := Sorted(values, lo, hi);
  }

  /** The next value to try: xs[i], or `top` when the list is used up. */
  function Cut(xs: seq<int>, i: nat, top: int): int
    requires i <= |xs|
  {
    if i < |xs| then xs[i] else top
  }

  lemma NoneBetween(xs: seq<int>, i: nat, v: int)
    requires Ascending(xs) && i <= |xs|
    requires (i > 0 ==> xs[i - 1] < v) && (i < |xs| ==> v < xs[i])
    ensures v !in xs
  {
    forall k | 0 <= k < |xs| ensures xs[k] != v {
      assert k + 1 < i ==> xs[k] < xs[i - 1];
      assert i < k ==> xs[i] < xs[k];
    }
  }

  // ------------------------------------------------------------ wall clock arithmetic

  lemma Div60(m: int, q: int, r: int)
    requires m == q * 60 + r && 0 <= r < 60
    ensures m / 60 == q && m % 60 == r
  {
  }

  lemma Div1440(m: int, q: int, r: int)
    requires m == q * 1440 + r && 0 <= r < 1440
    ensures m / 1440 == q && m % 1440 == r
  {
  }

  lemma WholeDay(day: int, h: int, mi: int)
    requires 0 <= h < 24 && 0 <= mi < 60
    ensures var m := day * 1440 + h * 60 + mi;
      m / 1440 == day && m % 1440 / 60 == h && m % 60 == mi
  {
    var m := day * 1440 + h * 60 + mi;
    Div1440(m, day, h * 60 + mi);
    Div60(h * 60 + mi, h, mi);
    Div60(m, day * 24 + h, mi);
  }

  /** No minute of hour h strictly between the listed ones matches. */
  lemma MinuteGap(spec: Spec, day: int, h: int, minutes: seq<int>, b: nat, lo: int)
    requires Ascending(minutes) && b <= |minutes| && 0 <= h < 24
    requires forall v :: v in minutes <==> v in spec.minutes && 0 <= v <= 59
    requires 0 <= lo && (b == 0 ==> lo == 0) && (b > 0 ==> lo == minutes[b - 1] + 1)
    ensures forall m :: day * 1440 + h * 60 + lo <= m < day * 1440 + h * 60 + Cut(minutes, b, 60) ==> !Hits(spec)(m)
  {
    forall m | day * 1440 + h * 60 + lo <= m < day * 1440 + h * 60 + Cut(minutes, b, 60)
      ensures !Hits(spec)(m)
    {
      var mi := m - day * 1440 - h * 60;
      assert b < |minutes| ==> minutes[b] in minutes;
      WholeDay(day, h, mi);
      NoneBetween(minutes, b, mi);
    }
  }

  lemma HourGap(spec: Spec, day: int, hours: seq<int>, a: nat, lo: int)
    requires Ascending(hours) && a <= |hours|
    requires forall v :: v in hours <==> v in spec.hours && 0 <= v <= 23
    requires 0 <= lo && (a == 0 ==> lo == 0) && (a > 0 ==> lo == hours[a - 1] + 1)
    ensures forall m :: day * 1440 + lo * 60 <= m < day * 1440 + Cut(hours, a, 24) * 60 ==> !Hits(spec)(m)
  {
    forall m | day * 1440 + lo * 60 <= m < day * 1440 + Cut(hours, a, 24) * 60
      ensures !Hits(spec)(m)
    {
      assert a < |hours| ==> hours[a] in hours;
      var r := m - day * 1440;
      WholeDay(day, r / 60, r % 60);
      NoneBetween(hours, a, r / 60);
    }
  }

  lemma DayGap(spec: Spec, day: int)
    requires !MatchesDay(spec, day)
    ensures forall m :: day * 1440 <= m < (day + 1) * 1440 ==> !Hits(spec)(m)
  {
  }

  /** The check of the source that an instant reads back as h:mi of day d. */
  predicate ReadsBack(wall: int, d: int, h: int, mi: int) { PartsOf(wall) == Parts(Civil(d), h, mi) }

  /** An instant reads back as h:mi of day d exactly at that local minute. */
  lemma ReadsBackIff(wall: int, d: int, h: int, mi: int)
    requires 0 <= h < 24 && 0 <= mi < 60
    ensures ReadsBack(wall, d, h, mi) <==> wall == d * 1440 + h * 60 + mi
  {
    DayNumberOfCivil(d);
    DayNumberOfCivil(wall / 1440);
    WholeDay(d, h, mi);
    if ReadsBack(wall, d, h, mi) {
      assert wall / 1440 == d;
      SplitMinute(wall);
    }
  }

  lemma SplitMinute(wall: int)
    ensures wall == wall / 1440 * 1440 + wall % 1440 / 60 * 60 + wall % 60
  {
    var r := wall % 1440;
    Div60(wall, wall / 1440 * 24 + r / 60, r % 60);
  }

  /** On the first day the source skips wall times up to the current one. */
  predicate AlreadyPast(wall: int, h: int, mi: int) {
    var f := PartsOf(wall);
    h * 60 + mi <= f.h * 60 + f.mi
  }

  lemma AlreadyPastIff(wall: int, h: int, mi: int)
    ensures AlreadyPast(wall, h, mi) <==> wall / 1440 * 1440 + h * 60 + mi <= wall
  {
    SplitMinute(wall);
  }

  // ------------------------------------------------------------ the search

  /** Whatever the zone does: within the window, and the wall time read back matches the schedule. */
  ghost predicate Sound(spec: Spec, zone: Zone, now: int, out: seq<int>) {
    forall t :: t in out ==> now < t <= Horizon(now) && MatchesMinute(spec, zone.wall(t))
  }

  /** In the order of the wall clock. */
  ghost predicate ByWall(zone: Zone, out: seq<int>) {
    forall i, j :: 0 <= i < j < |out| ==> zone.wall(out[i]) < zone.wall(out[j])
  }

  /** The same day of the next year. */
  lemma OneYearOn(y: int, mo: int, d: int)
    requires 1 <= mo <= 12 && 1 <= d <= 28
    ensures ValidDate(Date(y, mo, d))
    ensures 365 <= DayNumber(Date(y + 1, mo, d)) - DayNumber(Date(y, mo, d)) <= 366
  {
    YearLength(y);
  }

  /** Day d of month mo lies in this year or the next, between its own first day and its last. */
  lemma ThisYearOrNext(n: int, mo: int, d: int)
    requires 1 <= mo <= 12 && 1 <= d <= 28
    ensures
      var y := Civil(n).y;
      var one, other := DayNumber(Date(y, mo, d)), DayNumber(Date(y + 1, mo, d));
      && ValidDate(Date(y, mo, d)) && ValidDate(Date(y + 1, mo, d))
      && one < n + 366 && n < other <= one + 366
  {
    var y := Civil(n).y;
    var a, b := YearStart(y), YearStart(y + 1);
    OneYearOn(y, mo, d);
    OneYearOn(y + 1, mo, d);
    assert b - a <= 366 by { YearLength(y); }
    assert a <= n < b by {
      DayNumberOfCivil(n);
      DayOfYear(Civil(n));
    }
    assert a <= DayNumber(Date(y, mo, d)) < b by { DayOfYear(Date(y, mo, d)); }
    assert b <= DayNumber(Date(y + 1, mo, d)) by { DayOfYear(Date(y + 1, mo, d)); }
  }

  /** A local minute at h:mi on day d of month mo, this year or next, after the minute w. */
  lemma WithinAYear(w: int, mo: int, d: int, h: int, mi: int) returns (at: int, y: int)
    requires 1 <= mo <= 12 && 1 <= d <= 28 && 0 <= h < 24 && 0 <= mi < 60
    ensures ValidDate(Date(y, mo, d)) && at == DayNumber(Date(y, mo, d)) * 1440 + h * 60 + mi
    ensures w < at <= w + 367 * 1440
  {
    ThisYearOrNext(w / 1440, mo, d);
    y := Civil(w / 1440).y;
    at := DayNumber(Date(y, mo, d)) * 1440 + h * 60 + mi;
    if at <= w {
      y := y + 1;
      at := DayNumber(Date(y, mo, d)) * 1440 + h * 60 + mi;
    }
  }

  /** A local minute that matches within 368 days is found, or an earlier one is. */
  lemma MatchIsFound(spec: Spec, o: int, now: int, m: int)
    requires Hits(spec)(m) && MinuteOf(o, now) < m <= MinuteOf(o, now) + 368 * 1440
    ensures Scan(Hits(spec), o, MinuteOf(o, now) + 1, now + 368 * 86400000, 1) != []
  {
    MinuteOfInstant(o, m);
    ScanComplete(Hits(spec), o, MinuteOf(o, now) + 1, now + 368 * 86400000, 1, InstantOf(o, m));
  }

  /**
   The horizon is wide enough for a yearly schedule: one that names some h:mi on a day 1 to 28 of some
   month has a next run at every moment, under every offset.
   */
  lemma YearlyRunIsFound(spec: Spec, o: int, now: int, mo: int, d: int, h: int, mi: int)
    requires 1 <= mo <= 12 && 1 <= d <= 28 && 0 <= h < 24 && 0 <= mi < 60
    requires mo in spec.months && h in spec.hours && mi in spec.minutes
    requires if spec.doms.Some? then d in spec.doms.value else spec.dows.None?
    ensures Scan(Hits(spec), o, MinuteOf(o, now) + 1, Horizon(now), 1) != []
  {
    var m, y := WithinAYear(MinuteOf(o, now), mo, d, h, mi);
    CivilOfDayNumber(Date(y, mo, d));
    WholeDay(DayNumber(Date(y, mo, d)), h, mi);
    MatchIsFound(spec, o, now, m);
  }

  /** Runs by the wall clock are in order when the clock is not put back within the window searched. */
  lemma ByWallInOrder(spec: Spec, zone: Zone, now: int, out: seq<int>)
    requires Sound(spec, zone, now, out) && ByWall(zone, out)
    requires forall s, t :: now < s <= t <= Horizon(now) ==> zone.wall(s) <= zone.wall(t)
    ensures Ascending(out)
  {
    forall i, j | 0 <= i < j < |out| ensures out[i] < out[j] {
      assert out[i] in out && out[j] in out;
    }
  }

  /** A fixed offset of at most a day: the zones in which no run may be missed. */
  ghost predicate Steady(zone: Zone) { Fixed(zone, zone.offset(0)) && zone.offset(0) <= 86400000 }

  /** The search is still on, with all local minutes before `cut` tried. */
  ghost predicate Looking(spec: Spec, now: int, count: int, zone: Zone, out: seq<int>, cut: int) {
    && |out| < count
    && Sound(spec, zone, now, out)
    && ByWall(zone, out) && (forall t :: t in out ==> zone.wall(t) < cut)
    && (Steady(zone) ==> Seen(Hits(spec), zone.offset(0), now, Horizon(now), out, cut))
  }

  /** The search has returned. */
  ghost predicate Found(spec: Spec, now: int, count: int, zone: Zone, out: seq<int>) {
    && |out| <= count
    && Sound(spec, zone, now, out) && ByWall(zone, out)
    && (Steady(zone) ==> FirstRuns(Hits(spec), zone.offset(0), now, Horizon(now), count, out))
  }

  lemma Skip(spec: Spec, now: int, count: int, zone: Zone, out: seq<int>, cut: int, cut': int)
    requires Looking(spec, now, count, zone, out, cut) && cut <= cut'
    requires forall m :: cut <= m < cut' ==> !Hits(spec)(m)
    ensures Looking(spec, now, count, zone, out, cut')
  {
    if Steady(zone) { SeenSkip(Hits(spec), zone.offset(0), now, Horizon(now), out, cut, cut'); }
  }

  lemma TooEarly(spec: Spec, now: int, count: int, zone: Zone, out: seq<int>, m: int)
    requires Looking(spec, now, count, zone, out, m)
    requires Steady(zone) ==> InstantOf(zone.offset(0), m) <= now
    ensures Looking(spec, now, count, zone, out, m + 1)
  {
    if Steady(zone) { SeenTooEarly(Hits(spec), zone.offset(0), now, Horizon(now), out, m); }
  }

  /** Past the horizon every later candidate is past it too, when the offset is fixed. */
  lemma TooLate(spec: Spec, now: int, count: int, zone: Zone, out: seq<int>, cut: int)
    requires Looking(spec, now, count, zone, out, cut)
    requires Steady(zone) ==> Horizon(now) < InstantOf(zone.offset(0), cut)
    ensures Found(spec, now, count, zone, out)
  {
    if Steady(zone) { SeenPast(Hits(spec), zone.offset(0), now, Horizon(now), count, out, cut); }
  }

  lemma NextByWall(zone: Zone, out: seq<int>, m: int, epoch: int)
    requires ByWall(zone, out) && (forall t :: t in out ==> zone.wall(t) < m) && zone.wall(epoch) == m
    ensures ByWall(zone, out + [epoch]) && forall t :: t in out + [epoch] ==> zone.wall(t) < m + 1
  {
    var more := out + [epoch];
    forall i, j | 0 <= i < j < |more| ensures zone.wall(more[i]) < zone.wall(more[j]) {
      assert more[i] == out[i] && out[i] in out;
      assert j < |out| ==> more[j] == out[j];
    }
  }

  lemma Take(spec: Spec, now: int, count: int, zone: Zone, out: seq<int>, m: int, epoch: int)
    requires Looking(spec, now, count, zone, out, m) && now < epoch <= Horizon(now)
    requires zone.wall(epoch) == m && MatchesMinute(spec, m)
    requires Steady(zone) ==> epoch == InstantOf(zone.offset(0), m)
    ensures |out| + 1 < count ==> Looking(spec, now, count, zone, out + [epoch], m + 1)
    ensures |out| + 1 == count ==> Found(spec, now, count, zone, out + [epoch])
  {
    NextByWall(zone, out, m, epoch);
    if Steady(zone) {
      SeenTake(Hits(spec), zone.offset(0), now, Horizon(now), out, m);
      if |out| + 1 == count {
        SeenFull(Hits(spec), zone.offset(0), now, Horizon(now), count, out + [epoch], m + 1);
      }
    }
  }

  /** The instant the code computes for local minute m, when the offset is fixed. */
  lemma FixedInstant(zone: Zone, o: int, m: int)
    requires Fixed(zone, o)
    ensures var naive := m * 60000;
      var e := naive - zone.offset(naive - zone.offset(naive));
      e == InstantOf(o, m) && zone.wall(e) == m
  {
  }

  /**
   The innermost loop body: local minute m, which is h:mi of day d, tried as an instant. `done`
   is a return of the whole search.
   */
  method Candidate(spec: Spec, now: int, count: int, zone: Zone, today: bool, d: int, h: int, mi: int, out: seq<int>)
    returns (out': seq<int>, done: bool)
    requires 0 <= h < 24 && 0 <= mi < 60
    requires MatchesMinute(spec, d * 1440 + h * 60 + mi)
    requires today ==> d == zone.wall(now) / 1440
    requires Looking(spec, now, count, zone, out, d * 1440 + h * 60 + mi)
    ensures !done ==> Looking(spec, now, count, zone, out', d * 1440 + h * 60 + mi + 1)
    ensures done ==> Found(spec, now, count, zone, out')
  {
    out', done := out, false;
    ghost var m := d * 1440 + h * 60 + mi;
    if Steady(zone) { FixedInstant(zone, zone.offset(0), m); }
    if today && AlreadyPast(zone.wall(now), h, mi) {
      AlreadyPastIff(zone.wall(now), h, mi);
      TooEarly(spec, now, count, zone, out, m);
      return;
    }
    var naive := (d * 1440 + h * 60 + mi) * 60000;
    var o1 := zone.offset(naive);
    var epoch := naive - zone.offset(naive - o1);
    ReadsBackIff(zone.wall(epoch), d, h, mi);
    if !ReadsBack(zone.wall(epoch), d, h, mi) {
      TooEarly(spec, now, count, zone, out, m);
      return;
    }
    if epoch <= now {
      TooEarly(spec, now, count, zone, out, m);
      return;
    }
    if epoch > Horizon(now) {
      TooLate(spec, now, count, zone, out, m);
      done := true;
      return;
    }
    Take(spec, now, count, zone, out, m, epoch);
    out' := out + [epoch];
    done := |out'| >= count;
  }

  /** The loop over the minutes of one hour. */
  method SearchHour(spec: Spec, now: int, count: int, zone: Zone, today: bool, d: int, h: int, minutes: seq<int>,
      out: seq<int>)
    returns (out': seq<int>, done: bool)
    requires 0 <= h < 24 && h in spec.hours && MatchesDay(spec, d) && (today ==> d == zone.wall(now) / 1440)
    requires Ascending(minutes) && forall v :: v in minutes <==> v in spec.minutes && 0 <= v <= 59
    requires Looking(spec, now, count, zone, out, d * 1440 + h * 60)
    ensures !done ==> Looking(spec, now, count, zone, out', d * 1440 + h * 60 + 60)
    ensures done ==> Found(spec, now, count, zone, out')
  {
    out', done := out, false;
    ghost var base := d * 1440 + h * 60;
    MinuteGap(spec, d, h, minutes, 0, 0);
    assert |minutes| > 0 ==> minutes[0] in minutes;
    Skip(spec, now, count, zone, out', base, base + Cut(minutes, 0, 60));
    var b := 0;
    while b < |minutes|
      invariant b <= |minutes| && !done
      invariant Looking(spec, now, count, zone, out', base + Cut(minutes, b, 60))
    {
      var mi := minutes[b];
      assert mi in minutes;
      WholeDay(d, h, mi);
      out', done := Candidate(spec, now, count, zone, today, d, h, mi, out');
      if done { return; }
      b := b + 1;
      assert b < |minutes| ==> minutes[b] in minutes;
      MinuteGap(spec, d, h, minutes, b, mi + 1);
      Skip(spec, now, count, zone, out', base + mi + 1, base + Cut(minutes, b, 60));
    }
  }

  /** The loop over the hours of one matching day. */
  method SearchDay(spec: Spec, now: int, count: int, zone: Zone, today: bool, d: int, hours: seq<int>,
      minutes: seq<int>, out: seq<int>)
    returns (out': seq<int>, done: bool)
    requires MatchesDay(spec, d) && (today ==> d == zone.wall(now) / 1440)
    requires Ascending(hours) && forall v :: v in hours <==> v in spec.hours && 0 <= v <= 23
    requires Ascending(minutes) && forall v :: v in minutes <==> v in spec.minutes && 0 <= v <= 59
    requires Looking(spec, now, count, zone, out, d * 1440)
    ensures !done ==> Looking(spec, now, count, zone, out', d * 1440 + 1440)
    ensures done ==> Found(spec, now, count, zone, out')
  {
    out', done := out, false;
    HourGap(spec, d, hours, 0, 0);
    assert |hours| > 0 ==> hours[0] in hours;
    Skip(spec, now, count, zone, out', d * 1440, d * 1440 + Cut(hours, 0, 24) * 60);
    var a := 0;
    while a < |hours|
      invariant a <= |hours| && !done
      invariant Looking(spec, now, count, zone, out', d * 1440 + Cut(hours, a, 24) * 60)
    {
      var h := hours[a];
      assert h in hours;
      out', done := SearchHour(spec, now, count, zone, today, d, h, minutes, out');
      if done { return; }
      a := a + 1;
      assert a < |hours| ==> hours[a] in hours;
      HourGap(spec, d, hours, a, h + 1);
      Skip(spec, now, count, zone, out', d * 1440 + h * 60 + 60, d * 1440 + Cut(hours, a, 24) * 60);
    }
  }

  /** The body of the day loop: nothing to try on a day that does not match. */
  method TryDay(spec: Spec, now: int, count: int, zone: Zone, today: bool, date: Date, d: int, hours: seq<int>,
      minutes: seq<int>, out: seq<int>)
    returns (out': seq<int>, done: bool)
    requires date == Civil(d) && (today ==> d == zone.wall(now) / 1440)
    requires Ascending(hours) && forall v :: v in hours <==> v in spec.hours && 0 <= v <= 23
    requires Ascending(minutes) && forall v :: v in minutes <==> v in spec.minutes && 0 <= v <= 59
    requires Looking(spec, now, count, zone, out, d * 1440)
    ensures !done ==> Looking(spec, now, count, zone, out', d * 1440 + 1440)
    ensures done ==> Found(spec, now, count, zone, out')
  {
    out', done := out, false;
    if date.mo in spec.months && DayMatches(spec, date.d, Weekday(d)) {
      out', done := SearchDay(spec, now, count, zone, today, d, hours, minutes, out');
    } else {
      DayGap(spec, d);
      Skip(spec, now, count, zone, out', d * 1440, d * 1440 + 1440);
    }
  }

  /** The day loop ran out, or its break was taken: everything up to the horizon was tried. */
  lemma Exhausted(spec: Spec, now: int, count: int, zone: Zone, out: seq<int>, d: int, days: int)
    requires Looking(spec, now, count, zone, out, d * 1440)
    requires d == zone.wall(now) / 1440 + days
    requires days > 369 || d * 86400000 > Horizon(now) + 86400000
    ensures Found(spec, now, count, zone, out)
  {
    TooLate(spec, now, count, zone, out, d * 1440);
  }

  lemma NothingYet(spec: Spec, now: int, count: int, zone: Zone)
    requires count > 0
    ensures Looking(spec, now, count, zone, [], zone.wall(now) / 1440 * 1440)
  {
    if Steady(zone) { SeenNothing(Hits(spec), zone.offset(0), now, Horizon(now), zone.wall(now) / 1440 * 1440); }
  }

  /** Date.UTC(y, mo - 1, d) of a date that came from day n. */
  method UtcDay(date: Date, ghost n: int) returns (d: int)
    requires date == Civil(n)
    ensures d == n
  {
    DayNumberOfCivil(n);
    d := DayNumber(date);
  }

  method SearchDays(spec: Spec, now: int, count: int, zone: Zone) returns (out: seq<int>)
    requires count > 0
    ensures Found(spec, now, count, zone, out)
  {
    var minutes := SortField(spec.minutes, 0, 59);
    var hours := SortField(spec.hours, 0, 23);
    out := [];
    var date := PartsOf(zone.wall(now)).date;
    ghost var n := zone.wall(now) / 1440;
    NothingYet(spec, now, count, zone);
    var day := 0;
    while day <= 369
      invariant 0 <= day <= 370 && n == zone.wall(now) / 1440 + day && date == Civil(n)
      invariant Looking(spec, now, count, zone, out, n * 1440)
    {
      var d := UtcDay(date, n);
      if d * 86400000 > Horizon(now) + 86400000 { break; }
      var done;
      out, done := TryDay(spec, now, count, zone, day == 0, date, d, hours, minutes, out);
      if done { return; }
      date, n, day := Civil(d + 1), n + 1, day + 1;
    }
    Exhausted(spec, now, count, zone, out, n, day);
  }

  method RunsOf(spec: Spec, now: int, count: int, zone: Zone) returns (out: seq<int>)
    requires count > 0
    ensures |out| <= count && Sound(spec, zone, now, out) && ByWall(zone, out)
    ensures Steady(zone) ==>
      out == Scan(Hits(spec), zone.offset(0), MinuteOf(zone.offset(0), now) + 1, Horizon(now), count)
  {
    out := SearchDays(spec, now, count, zone);
    if Steady(zone) {
      var o := zone.offset(0);
      ScanIsFirstRuns(Hits(spec), o, now, Horizon(now), count);
      FirstRunsUnique(Hits(spec), o, now, Horizon(now), count, out,
        Scan(Hits(spec), o, MinuteOf(o, now) + 1, Horizon(now), count));
    }
  }

  /**
   nextRuns. In any zone, whatever its offsets do, each returned instant is after `now`, within
   the horizon, and reads back as a wall time the schedule matches, and these wall times increase.
   In a zone of fixed offset the result is exactly what the minute-by-minute scan of the wall clock
   finds first.
   A rejected expression or a count below one gives no runs; an expression on which parseCron
   throws makes the call throw (None).
   */
  method NextRuns(expr: string, now: int, count: int, zone: Zone, js: Js)
    returns (r: Option<seq<int>>, parsed: CronResult)
    ensures Parses(expr, js, parsed)
    ensures r.None? <==> parsed.Throws?
    ensures r.Some? && (parsed.Rejected? || count <= 0) ==> r.value == []
    ensures parsed.Accepted? && count > 0 ==>
      |r.value| <= count && Sound(parsed.spec, zone, now, r.value) && ByWall(zone, r.value)
    ensures parsed.Accepted? && count > 0 && Steady(zone) ==>
      r.value == Scan(Hits(parsed.spec), zone.offset(0), MinuteOf(zone.offset(0), now) + 1, Horizon(now), count)
  {
    var result := ParseCron(expr, js);
    parsed := result;
    match result
    case Throws => r := None;
    case Rejected => r := Some([]);
    case Accepted(spec) =>
      if count <= 0 { return Some([]), parsed; }
      var out := RunsOf(spec, now, count, zone);
      r := Some(out);
  }
}
