/**
  The progress summary computed from the stored progress log: total and
  correct attempts, the accuracy rate, and attempts per day for the last
  seven days.
*/
module ProgressStats {
  import opened Wrappers
  import opened Text
  import opened Types
  import opened Lists
  import opened Json

  /** A rate as an exact fraction `num / den`. */
  datatype Ratio = Ratio(num: nat, den: nat)

  datatype DailyProgress = DailyProgress(date: string, attempts: nat, correct: nat)

  datatype Stats = Stats(
    totalAttempts: nat,
    correctAttempts: nat,
    accuracyRate: Ratio,
    dailyProgress: seq<DailyProgress>)

  /** The test `p => p.correct`. */
  predicate IsCorrect(p: ProgressRecord) {
    p.correct
  }

  /** The test `p => p.attemptDate.startsWith(date)`. */
  function FallsOn(date: string): ProgressRecord -> bool {
    (p: ProgressRecord) => StartsWith(p.attemptDate, date)
  }

  /** The number of correct records, counted from the end: `filter(p => p.correct).length`. */
  function CountCorrect(records: seq<ProgressRecord>): (r: nat)
    ensures r == |Filter(records, IsCorrect)|
    ensures r <= |records|
  {
    if records == [] then 0
    else
      var init, last := records[..|records| - 1], records[|records| - 1];
      assert records == init + [last];
      FilterAppend(init, [last], IsCorrect);
      assert [last][1..] == [];
      CountCorrect(init) + (if last.correct then 1 else 0)
  }

  /** The records whose attempt date starts with `date`, in order, collected from the end. */
  function OnDay(records: seq<ProgressRecord>, date: string): (r: seq<ProgressRecord>)
    ensures r == Filter(records, FallsOn(date))
    ensures forall p :: p in r <==> p in records && StartsWith(p.attemptDate, date)
  {
    if records == [] then []
    else
      var init, last := records[..|records| - 1], records[|records| - 1];
      assert records == init + [last];
      FilterAppend(init, [last], FallsOn(date));
      assert [last][1..] == [];
      OnDay(init, date) + (if StartsWith(last.attemptDate, date) then [last] else [])
  }

  /**
    The seven calendar dates shown, oldest first; `daysAgo(i)` is the date
    (as "YYYY-MM-DD") `i` days before now.
  */
  function Last7Days(daysAgo: nat -> string): (r: seq<string>)
    ensures |r| == 7 && forall k :: 0 <= k < 7 ==> r[k] == daysAgo(6 - k)
  {
    seq(7, k requires 0 <= k < 7 => daysAgo(6 - k))
  }

  function Daily(records: seq<ProgressRecord>, date: string): DailyProgress {
    var day := OnDay(records, date);
    DailyProgress(date, |day|, CountCorrect(day))
  }

  /** The statistics of a readable log. */
  function Summarize(records: seq<ProgressRecord>, daysAgo: nat -> string): Stats {
    var total := |records|;
    var correct := CountCorrect(records);
    var days := Last7Days(daysAgo);
    Stats(total, correct,
          if total > 0 then Ratio(correct, total) else Ratio(0, 1),
          seq(7, k requires 0 <= k < 7 => Daily(records, days[k])))
  }

  /**
    The statistics of the stored log, or None when computing them throws:
    `JSON.parse` rejects unparsable text, and a parsed value that is not an
    array has no `filter`, so the stats shown are not updated. An absent
    log counts as empty.
  */
  function Calculate(stored: Stored<ProgressRecord>, daysAgo: nat -> string): (r: Option<Stats>)
    ensures r.None? <==> stored.Unparsable? || stored.NotAnArray?
    ensures stored.Items? ==> r == Some(Summarize(stored.items, daysAgo))
    ensures stored.Absent? ==> r == Some(Summarize([], daysAgo))
  {
    match stored
    case Absent => Some(Summarize([], daysAgo))
    case Items(records) => Some(Summarize(records, daysAgo))
    case Unparsable => None
    case NotAnArray => None
  }

  // ---- properties ----

  /** Correct attempts never exceed attempts, so the accuracy is a fraction in [0, 1]. */
  lemma AccuracyInRange(records: seq<ProgressRecord>, daysAgo: nat -> string)
    ensures var s := Summarize(records, daysAgo);
      && s.totalAttempts == |records|
      && s.correctAttempts <= s.totalAttempts
      && s.accuracyRate.den > 0 && s.accuracyRate.num <= s.accuracyRate.den
      && (s.totalAttempts == 0 ==> s.accuracyRate == Ratio(0, 1))
      && (s.totalAttempts > 0 ==> s.accuracyRate == Ratio(s.correctAttempts, s.totalAttempts))
  {
  }

  /** An absent log gives the same statistics as an empty one: all zero. */
  lemma MissingStoreIsEmpty(daysAgo: nat -> string)
    ensures Calculate(Absent, daysAgo) == Calculate(Items([]), daysAgo)
    ensures Calculate(Absent, daysAgo).Some?
    ensures var s := Calculate(Absent, daysAgo).value;
      s.totalAttempts == 0 && s.correctAttempts == 0 && s.accuracyRate == Ratio(0, 1)
      && forall k :: 0 <= k < 7 ==> s.dailyProgress[k].attempts == 0
  {
  }

  /**
    There are seven daily entries, the oldest first, each counting the
    records of that date, with no more correct ones than attempts.
  */
  lemma DailyBuckets(records: seq<ProgressRecord>, daysAgo: nat -> string)
    ensures var s := Summarize(records, daysAgo);
      && |s.dailyProgress| == 7
      && forall k :: 0 <= k < 7 ==>
           && s.dailyProgress[k].date == daysAgo(6 - k)
           && s.dailyProgress[k].attempts == |OnDay(records, daysAgo(6 - k))|
           && s.dailyProgress[k].correct <= s.dailyProgress[k].attempts
  {
  }

  /** The number of dates in `dates` that `s` starts with. */
  function Matches(dates: seq<string>, s: string): nat {
    if dates == [] then 0
    else Matches(dates[..|dates| - 1], s) + (if StartsWith(s, dates[|dates| - 1]) then 1 else 0)
  }

  /** The total of the day counts over `dates`. */
  function DayTotal(records: seq<ProgressRecord>, dates: seq<string>): nat {
    if dates == [] then 0
    else DayTotal(records, dates[..|dates| - 1]) + |OnDay(records, dates[|dates| - 1])|
  }

  /** Distinct dates of one length: "YYYY-MM-DD" strings of distinct days. */
  predicate DistinctDates(dates: seq<string>) {
    && (forall i, j :: 0 <= i < j < |dates| ==> dates[i] != dates[j])
    && (forall i, j :: 0 <= i < |dates| && 0 <= j < |dates| ==> |dates[i]| == |dates[j]|)
  }

  /** A string that starts with `d` starts with no other date of the same length. */
  lemma {:induction false} NoOtherMatch(dates: seq<string>, d: string, s: string)
    requires forall e :: e in dates ==> e != d && |e| == |d|
    requires StartsWith(s, d)
    ensures Matches(dates, s) == 0
  {
    if dates != [] {
      var e := dates[|dates| - 1];
      assert e in dates;
      NoOtherMatch(dates[..|dates| - 1], d, s);
      assert !StartsWith(s, e) by {
        if |e| <= |s| {
          assert s[..|e|] == d;
        }
      }
    }
  }

  /** A string starts with at most one of several distinct dates of one length. */
  lemma {:induction false} AtMostOneMatch(dates: seq<string>, s: string)
    requires DistinctDates(dates)
    ensures Matches(dates, s) <= 1
  {
    if dates != [] {
      var init := dates[..|dates| - 1];
      var d := dates[|dates| - 1];
      assert DistinctDates(init);
      AtMostOneMatch(init, s);
      if StartsWith(s, d) {
        forall e | e in init
          ensures e != d && |e| == |d|
        {
          var i :| 0 <= i < |init| && init[i] == e;
          assert dates[i] == e;
        }
        NoOtherMatch(init, d, s);
      }
    }
  }

  /** Adding one record adds to the day total the number of dates it falls on. */
  lemma {:induction false} DayTotalSnoc(records: seq<ProgressRecord>, p: ProgressRecord, dates: seq<string>)
    ensures DayTotal(records + [p], dates) == DayTotal(records, dates) + Matches(dates, p.attemptDate)
  {
    if dates != [] {
      DayTotalSnoc(records, p, dates[..|dates| - 1]);
      assert (records + [p])[..|records + [p]| - 1] == records;
    }
  }

  /**
    With seven distinct dates, no record is counted on two days, so the
    daily attempts add up to at most the total.
  */
  lemma {:induction false} DayTotalBounded(records: seq<ProgressRecord>, dates: seq<string>)
    requires DistinctDates(dates)
    ensures DayTotal(records, dates) <= |records|
    decreases |records|
  {
    if records != [] {
      var init := records[..|records| - 1];
      var p := records[|records| - 1];
      assert records == init + [p];
      DayTotalBounded(init, dates);
      DayTotalSnoc(init, p, dates);
      AtMostOneMatch(dates, p.attemptDate);
    } else {
      DayTotalEmpty(dates);
    }
  }

  lemma {:induction false} DayTotalEmpty(dates: seq<string>)
    ensures DayTotal([], dates) == 0
  {
    if dates != [] {
      DayTotalEmpty(dates[..|dates| - 1]);
    }
  }

  /** When the seven dates are distinct days, the daily attempts add up to at most the total. */
  lemma DailyWithinTotal(records: seq<ProgressRecord>, daysAgo: nat -> string)
    requires DistinctDates(Last7Days(daysAgo))
    ensures DayTotal(records, Last7Days(daysAgo)) <= Summarize(records, daysAgo).totalAttempts
  {
    DayTotalBounded(records, Last7Days(daysAgo));
  }
}
