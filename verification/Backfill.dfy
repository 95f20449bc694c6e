/**
 Backfilling a price history (apps/api/src/market-prices/market-prices.service.ts): which days are
 asked of a provider, and in how few calls.  Instants are milliseconds since the epoch, a UTC day is
 a whole number of days since then.
 */
module Backfill {

  const DAY_MS := 86_400_000

  function UtcDay(instant: int): int {
    instant / DAY_MS
  }

  function StartOfDay(day: int): int {
    day * DAY_MS
  }

  /** The days of a span, one after the other. */
  function Days(first: int, last: int): (r: seq<int>)
    ensures |r| == if first <= last then last - first + 1 else 0
    ensures forall i | 0 <= i < |r| :: r[i] == first + i
  {
    if last < first then [] else seq(last - first + 1, i => first + i)
  }

  method EachUtcDay(begin: int, end: int) returns (days: seq<int>)
    ensures days == Days(UtcDay(begin), UtcDay(end))
  {
    days := [];
    var cursor := UtcDay(begin);
    while cursor <= UtcDay(end)
      invariant days == Days(UtcDay(begin), cursor - 1)
      invariant UtcDay(begin) <= cursor && (cursor <= UtcDay(end) + 1 || cursor == UtcDay(begin))
      decreases UtcDay(end) - cursor
    {
      days := days + [cursor];
      cursor := cursor + 1;
    }
  }

  // ---- Days without a price ------------------------------------------------------------

  /** The query for stored rows: from the start of the first day up to the end instant itself. */
  predicate Queried(row: int, begin: int, end: int) {
    StartOfDay(UtcDay(begin)) <= row <= end
  }

  predicate Covered(rows: seq<int>, begin: int, end: int, day: int) {
    exists k | 0 <= k < |rows| :: Queried(rows[k], begin, end) && UtcDay(rows[k]) == day
  }

  ghost predicate Increasing(days: seq<int>) {
    forall i, j | 0 <= i < j < |days| :: days[i] < days[j]
  }

  predicate WantsDay(rows: seq<int>, begin: int, end: int, day: int) {
    UtcDay(begin) <= day <= UtcDay(end) && !Covered(rows, begin, end, day)
  }

  /** In order, exactly the days of the span on which no queried row falls. */
  method MissingHistoryDays(rows: seq<int>, begin: int, end: int) returns (missing: seq<int>)
    ensures Increasing(missing)
    ensures forall day :: day in missing <==> WantsDay(rows, begin, end, day)
  {
    var covered: set<int> := {};
    for k := 0 to |rows|
      invariant forall day :: day in covered <==> Covered(rows[..k], begin, end, day)
    {
      CoveredGrows(rows, k, begin, end);
      if Queried(rows[k], begin, end) {
        covered := covered + {UtcDay(rows[k])};
      }
    }
    assert rows[..|rows|] == rows;
    var days := EachUtcDay(begin, end);
    missing := [];
    for i := 0 to |days|
      invariant Increasing(missing)
      invariant forall day :: day in missing <==> day in days[..i] && day !in covered
    {
      assert days[..i + 1] == days[..i] + [days[i]];
      if days[i] !in covered {
        forall j | 0 <= j < |missing|
          ensures missing[j] < days[i]
        {
          assert missing[j] in missing;
          assert missing[j] in days[..i];
        }
        missing := missing + [days[i]];
      }
    }
    forall day
      ensures day in days[..|days|] <==> UtcDay(begin) <= day <= UtcDay(end)
    {
      if UtcDay(begin) <= day <= UtcDay(end) {
        assert days[day - UtcDay(begin)] == day;
      }
    }
  }

  lemma CoveredGrows(rows: seq<int>, k: nat, begin: int, end: int)
    requires k < |rows|
    ensures forall day :: (Covered(rows[..k + 1], begin, end, day)
                           <==> Covered(rows[..k], begin, end, day) || (Queried(rows[k], begin, end) && UtcDay(rows[k]) == day))
  {
    forall day: int
      ensures (Covered(rows[..k + 1], begin, end, day)
               <==> Covered(rows[..k], begin, end, day) || (Queried(rows[k], begin, end) && UtcDay(rows[k]) == day))
    {
      var less, more := rows[..k], rows[..k + 1];
      if Covered(less, begin, end, day) {
        var j :| 0 <= j < |less| && Queried(less[j], begin, end) && UtcDay(less[j]) == day;
        assert more[j] == less[j];
      }
      if Covered(more, begin, end, day) {
        var j :| 0 <= j < |more| && Queried(more[j], begin, end) && UtcDay(more[j]) == day;
        assert j < k ==> less[j] == more[j];
      }
      assert more[k] == rows[k];
    }
  }

  /** Before the last day a day counts as covered exactly when it has a row at all; on the last day
      only rows up to the end instant count. */
  lemma CoveredExactly(rows: seq<int>, begin: int, end: int, day: int)
    requires UtcDay(begin) <= day <= UtcDay(end)
    ensures Covered(rows, begin, end, day) <==>
      exists k | 0 <= k < |rows| :: UtcDay(rows[k]) == day && (day < UtcDay(end) || rows[k] <= end)
  {
    forall k | 0 <= k < |rows| && UtcDay(rows[k]) == day
      ensures Queried(rows[k], begin, end) <==> day < UtcDay(end) || rows[k] <= end
    {
      DayBounds(rows[k]);
      DayBounds(end);
      DayOrder(UtcDay(begin), day);
      if day < UtcDay(end) {
        DayOrder(day + 1, UtcDay(end));
      }
    }
  }

  lemma DayBounds(instant: int)
    ensures StartOfDay(UtcDay(instant)) <= instant < StartOfDay(UtcDay(instant) + 1)
  {
  }

  lemma DayOrder(a: int, b: int)
    requires a <= b
    ensures StartOfDay(a) <= StartOfDay(b)
  {
  }

  // ---- Runs of consecutive days --------------------------------------------------------

  datatype Range = Range(first: int, last: int)

  predicate Proper(r: Range) {
    r.first <= r.last
  }

  function Expand(rs: seq<Range>): seq<int> {
    if rs == [] then [] else Expand(rs[..|rs| - 1]) + Days(rs[|rs| - 1].first, rs[|rs| - 1].last)
  }

  predicate Joinable(rs: seq<Range>, i: nat)
    requires i + 1 < |rs|
  {
    rs[i].last + 1 == rs[i + 1].first
  }

  /** The ranges spell out the days, none is empty, and no two neighbours could be one. */
  ghost predicate AreRuns(rs: seq<Range>, days: seq<int>) {
    && Expand(rs) == days
    && (forall i | 0 <= i < |rs| :: Proper(rs[i]))
    && (forall i | 0 <= i && i + 1 < |rs| :: !Joinable(rs, i))
  }

  method ContiguousRanges(days: seq<int>) returns (ranges: seq<Range>)
    ensures AreRuns(ranges, days)
  {
    if days == [] {
      return [];
    }
    ranges := [];
    var start, previous := days[0], days[0];
    for i := 1 to |days|
      invariant AreRuns(ranges + [Range(start, previous)], days[..i])
    {
      var day := days[i];
      var expected := previous + 1;
      assert days[..i + 1] == days[..i] + [day];
      if day == expected {
        LongerRun(ranges, Range(start, previous), days[..i]);
        previous := day;
      } else {
        NextRun(ranges, Range(start, previous), day, days[..i]);
        ranges := ranges + [Range(start, previous)];
        start, previous := day, day;
      }
    }
    assert days[..|days|] == days;
    ranges := ranges + [Range(start, previous)];
  }

  lemma ExpandLast(rs: seq<Range>, r: Range)
    ensures Expand(rs + [r]) == Expand(rs) + Days(r.first, r.last)
  {
    assert (rs + [r])[..|rs|] == rs;
  }

  lemma LongerExpand(rs: seq<Range>, r: Range)
    requires Proper(r)
    ensures Expand(rs + [Range(r.first, r.last + 1)]) == Expand(rs + [r]) + [r.last + 1]
  {
    ExpandLast(rs, r);
    ExpandLast(rs, Range(r.first, r.last + 1));
    assert Days(r.first, r.last + 1) == Days(r.first, r.last) + [r.last + 1];
  }

  lemma LongerRun(rs: seq<Range>, r: Range, days: seq<int>)
    requires AreRuns(rs + [r], days)
    ensures AreRuns(rs + [Range(r.first, r.last + 1)], days + [r.last + 1])
  {
    hide Expand, Days;
    var before, after := rs + [r], rs + [Range(r.first, r.last + 1)];
    assert Proper(before[|rs|]);
    LongerExpand(rs, r);
    forall i | 0 <= i < |after|
      ensures Proper(after[i])
    {
      assert Proper(before[i]);
    }
    forall i | 0 <= i && i + 1 < |after|
      ensures !Joinable(after, i)
    {
      assert !Joinable(before, i);
    }
  }

  lemma NextRun(rs: seq<Range>, r: Range, day: int, days: seq<int>)
    requires AreRuns(rs + [r], days) && day != r.last + 1
    ensures AreRuns(rs + [r] + [Range(day, day)], days + [day])
  {
    var before, after := rs + [r], rs + [r] + [Range(day, day)];
    ExpandLast(before, Range(day, day));
    assert Days(day, day) == [day];
    forall i | 0 <= i < |after|
      ensures Proper(after[i])
    {
      assert i < |before| ==> Proper(before[i]);
    }
    forall i | 0 <= i && i + 1 < |after|
      ensures !Joinable(after, i)
    {
      assert i + 1 < |before| ==> !Joinable(before, i);
    }
  }

  /** There is only one way to cut the days into such runs, so these are the longest ones. */
  lemma {:induction false} RunsUnique(rs: seq<Range>, ss: seq<Range>, days: seq<int>)
    requires AreRuns(rs, days) && AreRuns(ss, days)
    ensures rs == ss
    decreases |rs|
  {
    hide AreRuns;
    if rs != [] && ss != [] {
      var r, s := rs[|rs| - 1], ss[|ss| - 1];
      LastDay(rs, days);
      LastDay(ss, days);
      LastRunsAlike(rs, ss, days);
      LastRunsAlike(ss, rs, days);
      DropLast(rs, days);
      DropLast(ss, days);
      RunsUnique(rs[..|rs| - 1], ss[..|ss| - 1], days[..|days| - (r.last - r.first + 1)]);
      assert rs == rs[..|rs| - 1] + [r] && ss == ss[..|ss| - 1] + [s];
    } else {
      EmptyRuns(rs, days);
      EmptyRuns(ss, days);
    }
  }

  lemma LastDay(rs: seq<Range>, days: seq<int>)
    requires AreRuns(rs, days) && rs != []
    ensures 0 < |days| && days[|days| - 1] == rs[|rs| - 1].last
  {
    assert Proper(rs[|rs| - 1]);
  }

  lemma EmptyRuns(rs: seq<Range>, days: seq<int>)
    requires AreRuns(rs, days)
    ensures days == [] <==> rs == []
  {
    if rs != [] {
      assert Proper(rs[|rs| - 1]);
    }
  }

  lemma DropLast(rs: seq<Range>, days: seq<int>)
    requires AreRuns(rs, days) && rs != []
    ensures var r := rs[|rs| - 1]; var n := |days| - (r.last - r.first + 1);
      0 <= n <= |days| && AreRuns(rs[..|rs| - 1], days[..n])
  {
    var r, front := rs[|rs| - 1], rs[..|rs| - 1];
    assert Proper(r);
    var n := |days| - (r.last - r.first + 1);
    assert days == Expand(front) + Days(r.first, r.last);
    assert days[..n] == Expand(front);
    forall i | 0 <= i < |front|
      ensures Proper(front[i])
    {
      assert Proper(rs[i]);
    }
    forall i | 0 <= i && i + 1 < |front|
      ensures !Joinable(front, i)
    {
      assert !Joinable(rs, i);
    }
  }

  /** The day before the last run is not the one before its first day. */
  lemma BeforeLastRun(rs: seq<Range>, days: seq<int>)
    requires AreRuns(rs, days) && rs != []
    ensures var r := rs[|rs| - 1]; var n := |days| - (r.last - r.first + 1);
      0 <= n && (0 < n ==> days[n - 1] + 1 != r.first)
  {
    var r, front := rs[|rs| - 1], rs[..|rs| - 1];
    DropLast(rs, days);
    var n := |days| - (r.last - r.first + 1);
    EmptyRuns(front, days[..n]);
    if front != [] {
      var p := front[|front| - 1];
      assert Proper(front[|front| - 1]);
      assert days[..n] == Expand(front[..|front| - 1]) + Days(p.first, p.last);
      assert days[n - 1] == p.last;
      assert !Joinable(rs, |rs| - 2);
    }
  }

  lemma InsideLastRun(rs: seq<Range>, days: seq<int>, day: int)
    requires AreRuns(rs, days) && rs != [] && rs[|rs| - 1].first < day <= rs[|rs| - 1].last
    ensures var n := |days| - (rs[|rs| - 1].last - day + 1); 0 < n && days[n - 1] == day - 1
  {
    var r := rs[|rs| - 1];
    assert days == Expand(rs[..|rs| - 1]) + Days(r.first, r.last);
  }

  /** Last runs that end together start together. */
  lemma LastRunsAlike(rs: seq<Range>, ss: seq<Range>, days: seq<int>)
    requires AreRuns(rs, days) && AreRuns(ss, days) && rs != [] && ss != []
    requires rs[|rs| - 1].last == ss[|ss| - 1].last
    ensures ss[|ss| - 1].first <= rs[|rs| - 1].first
  {
    var s := ss[|ss| - 1];
    BeforeLastRun(ss, days);
    assert Proper(ss[|ss| - 1]);
    if rs[|rs| - 1].first < s.first {
      InsideLastRun(rs, days, s.first);
      assert false;
    }
  }

  // ---- The backfill --------------------------------------------------------------------

  /** The calls made to the provider and the two counts reported. */
  method BackfillHistory(rows: seq<int>, begin: int, end: int)
    returns (calls: seq<Range>, requestedDays: nat, skippedDays: nat)
    ensures Increasing(Expand(calls))
    ensures forall day :: day in Expand(calls) <==> WantsDay(rows, begin, end, day)
    ensures AreRuns(calls, Expand(calls))
    ensures requestedDays == |Expand(calls)|
    ensures requestedDays + skippedDays == |Days(UtcDay(begin), UtcDay(end))|
  {
    var missing := MissingHistoryDays(rows, begin, end);
    var days := EachUtcDay(begin, end);
    forall i | 0 <= i < |missing|
      ensures UtcDay(begin) <= missing[i] <= UtcDay(end)
    {
      assert missing[i] in missing;
    }
    NoMoreThan(missing, UtcDay(begin), UtcDay(end));
    if |missing| == 0 {
      return [], 0, |days|;
    }
    calls := ContiguousRanges(missing);
    requestedDays := |missing|;
    skippedDays := |days| - |missing|;
  }

  /** Increasing days within a span are at most as many as the span has. */
  lemma NoMoreThan(missing: seq<int>, first: int, last: int)
    requires Increasing(missing) && forall i | 0 <= i < |missing| :: first <= missing[i] <= last
    ensures |missing| <= |Days(first, last)|
  {
    if missing != [] {
      AtLeast(missing, |missing| - 1, first);
    }
  }

  lemma {:induction false} AtLeast(missing: seq<int>, i: nat, first: int)
    requires Increasing(missing) && i < |missing| && first <= missing[0]
    ensures first + i <= missing[i]
  {
    if 0 < i {
      AtLeast(missing, i - 1, first);
    }
  }
}
