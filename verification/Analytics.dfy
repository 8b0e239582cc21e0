/** The analytics dashboard's aggregations (components/analytics-dashboard.tsx):
    adherence for each of the last seven days, the overall average, per
    medication dose statistics and the average mood of each logged day.
    Days are counted as day numbers; `iso` turns one into the "YYYY-MM-DD"
    string the log uses. */
module Analytics {
  import opened Domain
  import Seqs
  import Groups
  import Store

  // ---------------------------------------------------------------- last seven days

  /** `last7Days`: today and the six days before it, built newest first and
      then reversed, so the oldest day comes first. */
  function Last7Days(today: int): (days: seq<int>)
    ensures |days| == 7 && days[6] == today && days[0] == today - 6
    ensures forall i :: 0 <= i < 6 ==> days[i + 1] == days[i] + 1
  {
    Seqs.Reverse(seq(7, i => today - i))
  }

  /** One day of `adherenceByDay`. */
  datatype DaySummary = DaySummary(date: string, adherence: real, taken: nat, total: nat)

  /** A day's figures: the logs taken on that date against every slot of
      every current medication. */
  function Day(meds: seq<Medication>, logs: seq<MedicationLog>, date: string): (d: DaySummary)
    ensures d.date == date
    ensures d.total == SlotCount(meds) && d.taken <= |logs|
    ensures d.total == 0 ==> d.adherence == 0.0
    ensures d.total > 0 ==> (d.adherence <= 100.0 <==> d.taken <= d.total)
    ensures d.adherence == 0.0 <==> d.taken == 0 || d.total == 0
  {
    var taken := TakenCount(logs, date);
    var total := SlotCount(meds);
    DaySummary(date, Percentage(taken, total), taken, total)
  }

  function DayOf(meds: seq<Medication>, logs: seq<MedicationLog>): string -> DaySummary
  {
    (date: string) => Day(meds, logs, date)
  }

  /** `adherenceByDay` over the given dates. */
  function AdherenceByDay(meds: seq<Medication>, logs: seq<MedicationLog>, dates: seq<string>): (r: seq<DaySummary>)
    ensures |r| == |dates|
    ensures forall i :: 0 <= i < |r| ==> r[i].date == dates[i] && r[i].total == SlotCount(meds)
  {
    Seqs.Map(dates, DayOf(meds, logs))
  }

  /** The dashboard's window: the last seven days as dates. */
  function Window(meds: seq<Medication>, logs: seq<MedicationLog>, today: int, iso: int -> string): (r: seq<DaySummary>)
    ensures |r| == 7
  {
    AdherenceByDay(meds, logs, Seqs.Map(Last7Days(today), iso))
  }

  /** The window's last day shows the same figures as the header's
      statistics for today. */
  lemma {:induction false} WindowEndsToday(meds: seq<Medication>, logs: seq<MedicationLog>, today: int, iso: int -> string)
    ensures var last := Window(meds, logs, today, iso)[6];
            var stats := Store.TodayStats(meds, logs, iso(today));
            last.date == iso(today) && last.taken == stats.taken && last.total == stats.total
            && last.adherence == stats.percentage
  {
    var dates := Seqs.Map(Last7Days(today), iso);
    assert dates[6] == iso(today);
    assert Window(meds, logs, today, iso)[6] == Day(meds, logs, iso(today));
  }

  // ---------------------------------------------------------------- overall

  function SumAdherence(days: seq<DaySummary>): real
  {
    if days == [] then 0.0 else days[0].adherence + SumAdherence(days[1..])
  }

  function SumTaken(days: seq<DaySummary>): nat
  {
    if days == [] then 0 else days[0].taken + SumTaken(days[1..])
  }

  /** `overallAdherence`: the seven daily percentages summed and divided by
      seven, whatever the number of days given. */
  function OverallAdherence(days: seq<DaySummary>): real
  {
    SumAdherence(days) / 7.0
  }

  /** The days all count the same slots and each is that day's percentage. */
  predicate Uniform(days: seq<DaySummary>, total: nat)
  {
    forall i :: 0 <= i < |days| ==> days[i].total == total && days[i].adherence == Percentage(days[i].taken, total)
  }

  lemma {:induction false} WindowUniform(meds: seq<Medication>, logs: seq<MedicationLog>, today: int, iso: int -> string)
    ensures Uniform(Window(meds, logs, today, iso), SlotCount(meds))
  {
    var dates := Seqs.Map(Last7Days(today), iso);
    forall i | 0 <= i < 7
      ensures Window(meds, logs, today, iso)[i] == Day(meds, logs, dates[i])
    {
    }
  }

  /** Summing the daily percentages over a uniform window is taking one
      percentage of the summed taken counts. */
  lemma {:induction false} SumAdherenceUniform(days: seq<DaySummary>, total: nat)
    requires total > 0 && Uniform(days, total)
    ensures SumAdherence(days) == SumTaken(days) as real * 100.0 / total as real
  {
    if days != [] {
      SumAdherenceUniform(days[1..], total);
      var t, s, n := days[0].taken as real, SumTaken(days[1..]) as real, total as real;
      assert days[0].adherence == t / n * 100.0;
      AddShares(t, s, n);
    }
  }

  /** Over the seven-day window, the overall adherence is the share of
      the week's slots whose dose was logged taken, and 0 without slots. */
  lemma {:induction false} OverallAdherenceShare(meds: seq<Medication>, logs: seq<MedicationLog>, today: int, iso: int -> string)
    ensures var days := Window(meds, logs, today, iso);
            && (SlotCount(meds) == 0 ==> OverallAdherence(days) == 0.0)
            && (SlotCount(meds) > 0 ==>
                 OverallAdherence(days) == Percentage(SumTaken(days), 7 * SlotCount(meds)))
  {
    WindowUniform(meds, logs, today, iso);
    UniformShare(Window(meds, logs, today, iso), SlotCount(meds));
  }

  lemma {:induction false} UniformShare(days: seq<DaySummary>, total: nat)
    requires Uniform(days, total)
    ensures total == 0 ==> OverallAdherence(days) == 0.0
    ensures total > 0 ==> OverallAdherence(days) == Percentage(SumTaken(days), 7 * total)
  {
    if total == 0 {
      SumAdherenceZero(days);
    } else {
      SumAdherenceUniform(days, total);
      WeekShare(SumTaken(days), total);
    }
  }

  lemma {:induction false} AddShares(t: real, s: real, n: real)
    requires n > 0.0
    ensures t / n * 100.0 + s * 100.0 / n == (t + s) * 100.0 / n
  {
    var a, b := t / n, s / n;
    assert a * n == t && b * n == s;
    assert (a + b) * n == t + s;
    assert (t + s) / n == a + b;
  }

  lemma {:induction false} WeekShare(taken: nat, total: nat)
    requires total > 0
    ensures taken as real * 100.0 / total as real / 7.0 == Percentage(taken, 7 * total)
  {
    var s, n := taken as real, total as real;
    assert (7 * total) as real == 7.0 * n;
    var q := s / (7.0 * n);
    assert q * (7.0 * n) == s;
    assert (q * 100.0) * 7.0 * n == s * 100.0;
  }

  lemma {:induction false} SumAdherenceZero(days: seq<DaySummary>)
    requires Uniform(days, 0)
    ensures SumAdherence(days) == 0.0
  {
    if days != [] {
      SumAdherenceZero(days[1..]);
    }
  }

  /** When no day logs more taken doses than there are slots, the overall
      adherence of the window is a percentage. */
  lemma {:induction false} OverallAdherenceBounds(days: seq<DaySummary>, total: nat)
    requires |days| == 7 && Uniform(days, total)
    requires forall i :: 0 <= i < |days| ==> days[i].taken <= total
    ensures 0.0 <= OverallAdherence(days) <= 100.0
  {
    SumAdherenceBounds(days, total);
  }

  lemma {:induction false} SumAdherenceBounds(days: seq<DaySummary>, total: nat)
    requires Uniform(days, total)
    requires forall i :: 0 <= i < |days| ==> days[i].taken <= total
    ensures 0.0 <= SumAdherence(days) <= 100.0 * |days| as real
  {
    if days != [] {
      SumAdherenceBounds(days[1..], total);
    }
  }

  // ---------------------------------------------------------------- per medication

  datatype MedicationStat = MedicationStat(medication: Medication, adherence: real,
                                           totalDoses: nat, takenDoses: nat, missedDoses: int)

  function LogOf(id: string): MedicationLog -> bool
  {
    (log: MedicationLog) => log.medicationId == id
  }

  function IsTaken(): MedicationLog -> bool
  {
    (log: MedicationLog) => log.taken
  }

  function TakenLogOf(id: string): MedicationLog -> bool
  {
    (log: MedicationLog) => log.medicationId == id && log.taken
  }

  /** One medication's entry in `medicationStats`: its log entries, how many
      of them are taken, how many are not, and the taken share. */
  function StatOf(logs: seq<MedicationLog>, med: Medication): (s: MedicationStat)
    ensures s.medication == med
    ensures s.totalDoses == Seqs.Count(logs, LogOf(med.id))
    ensures s.takenDoses == Seqs.Count(logs, TakenLogOf(med.id))
    ensures s.takenDoses <= s.totalDoses && s.missedDoses == s.totalDoses - s.takenDoses
    ensures 0.0 <= s.adherence <= 100.0
    ensures s.totalDoses == 0 ==> s.adherence == 0.0
    ensures s.adherence == 100.0 <==> s.totalDoses > 0 && s.missedDoses == 0
  {
    var medLogs := Seqs.Filter(logs, LogOf(med.id));
    Seqs.FilterFilter(logs, LogOf(med.id), IsTaken(), TakenLogOf(med.id));
    var taken := Seqs.Count(medLogs, IsTaken());
    MedicationStat(med, Percentage(taken, |medLogs|), |medLogs|, taken, |medLogs| - taken)
  }

  function StatFor(logs: seq<MedicationLog>): Medication -> MedicationStat
  {
    (med: Medication) => StatOf(logs, med)
  }

  /** `medicationStats`: one entry per medication, in medication order. */
  function MedicationStats(meds: seq<Medication>, logs: seq<MedicationLog>): (r: seq<MedicationStat>)
    ensures |r| == |meds|
    ensures forall i :: 0 <= i < |r| ==> r[i].medication == meds[i] && 0 <= r[i].missedDoses
  {
    Seqs.Map(meds, StatFor(logs))
  }

  /** A dose marked for a key with no log entry yet adds one taken dose to
      that medication's statistics and leaves every other medication's
      statistics as they were. */
  lemma {:induction false} NewDoseCounts(logs: seq<MedicationLog>, med: Medication, other: Medication, date: string, time: string,
                      mood: Option<int>, sideEffects: Option<seq<string>>, stamp: string)
    requires Store.FindByKey(logs, med.id, date, time).None?
    requires other.id != med.id
    ensures var logs' := Store.MarkTaken(logs, med.id, date, time, mood, sideEffects, stamp);
            && StatOf(logs', med).totalDoses == StatOf(logs, med).totalDoses + 1
            && StatOf(logs', med).takenDoses == StatOf(logs, med).takenDoses + 1
            && StatOf(logs', med).missedDoses == StatOf(logs, med).missedDoses
            && StatOf(logs', other) == StatOf(logs, other)
  {
    var e := Store.TakenEntry(med.id, date, time, mood, sideEffects, stamp);
    assert Store.MarkTaken(logs, med.id, date, time, mood, sideEffects, stamp) == logs + [e];
    AppendedOwnDose(logs, e, med);
    AppendedOtherDose(logs, e, other);
  }

  /** A taken entry appended for `med` counts once among its doses and once
      among its taken doses. */
  lemma {:induction false} AppendedOwnDose(logs: seq<MedicationLog>, e: MedicationLog, med: Medication)
    requires e.medicationId == med.id && e.taken
    ensures StatOf(logs + [e], med).totalDoses == StatOf(logs, med).totalDoses + 1
    ensures StatOf(logs + [e], med).takenDoses == StatOf(logs, med).takenDoses + 1
    ensures StatOf(logs + [e], med).missedDoses == StatOf(logs, med).missedDoses
  {
    Seqs.CountConcat(logs, [e], LogOf(med.id));
    Seqs.CountConcat(logs, [e], TakenLogOf(med.id));
    assert Seqs.Count([e], LogOf(med.id)) == 1 + Seqs.Count([e][1..], LogOf(med.id));
    assert Seqs.Count([e], TakenLogOf(med.id)) == 1 + Seqs.Count([e][1..], TakenLogOf(med.id));
    var after, before := StatOf(logs + [e], med), StatOf(logs, med);
    assert after.totalDoses == before.totalDoses + 1;
    assert after.takenDoses == before.takenDoses + 1;
  }

  /** An entry appended for another medication leaves its statistics alone. */
  lemma {:induction false} AppendedOtherDose(logs: seq<MedicationLog>, e: MedicationLog, other: Medication)
    requires e.medicationId != other.id
    ensures StatOf(logs + [e], other) == StatOf(logs, other)
  {
    Seqs.FilterConcat(logs, [e], LogOf(other.id));
    assert Seqs.Filter([e], LogOf(other.id)) == [];
    assert Seqs.Filter(logs + [e], LogOf(other.id)) == Seqs.Filter(logs, LogOf(other.id));
  }

  // ---------------------------------------------------------------- mood

  /** The truthiness test `log.mood`: present and not 0. */
  function HasMood(): MedicationLog -> bool
  {
    (log: MedicationLog) => log.mood.Some? && log.mood.value != 0
  }

  function MoodValue(log: MedicationLog): int
  {
    if log.mood.Some? then log.mood.value else 0
  }

  function DatedMood(log: MedicationLog): (string, int)
  {
    (log.date, MoodValue(log))
  }

  function MoodOn(date: string): MedicationLog -> bool
  {
    (log: MedicationLog) => log.date == date && log.mood.Some? && log.mood.value != 0
  }

  /** `moodTrends`: the moods of the logs that have one, grouped by date. */
  function MoodTrends(logs: seq<MedicationLog>): seq<(string, seq<int>)>
  {
    Groups.GroupBy(Seqs.Map(Seqs.Filter(logs, HasMood()), DatedMood))
  }

  /** The (date, mood) pairs of `date`. */
  function PairsOn(logs: seq<MedicationLog>, date: string): seq<(string, int)>
  {
    Seqs.Filter(Seqs.Map(Seqs.Filter(logs, HasMood()), DatedMood), Groups.KeyIs(date))
  }

  lemma {:induction false} PairsOnCons(logs: seq<MedicationLog>, date: string)
    requires logs != []
    ensures PairsOn(logs, date)
            == (if MoodOn(date)(logs[0]) then [DatedMood(logs[0])] else [])
               + PairsOn(logs[1..], date)
  {
    var l := logs[0];
    var f := Seqs.Filter(logs, HasMood());
    var rest := Seqs.Filter(logs[1..], HasMood());
    if HasMood()(l) {
      assert f == [l] + rest;
      assert f[0] == l && f[1..] == rest;
      var m := Seqs.Map(f, DatedMood);
      assert m[0] == DatedMood(l) && m[1..] == Seqs.Map(rest, DatedMood);
    } else {
      assert f == rest;
    }
  }

  /** The (date, mood) pairs with a given date are the moods logged that
      day, in log order. */
  lemma {:induction false} MoodPairsOn(logs: seq<MedicationLog>, date: string)
    ensures Groups.Values(PairsOn(logs, date)) == Seqs.Map(Seqs.Filter(logs, MoodOn(date)), MoodValue)
  {
    if logs != [] {
      MoodPairsOn(logs[1..], date);
      MoodPairsOnStep(logs, date);
    }
  }

  lemma {:induction false} MoodPairsOnStep(logs: seq<MedicationLog>, date: string)
    requires logs != []
    requires Groups.Values(PairsOn(logs[1..], date)) == Seqs.Map(Seqs.Filter(logs[1..], MoodOn(date)), MoodValue)
    ensures Groups.Values(PairsOn(logs, date)) == Seqs.Map(Seqs.Filter(logs, MoodOn(date)), MoodValue)
  {
    PairsOnCons(logs, date);
    Seqs.FilterCons(logs, MoodOn(date));
    var l := logs[0];
    MoodPairsOnKept(MoodOn(date)(l), l, PairsOn(logs, date), PairsOn(logs[1..], date),
                    Seqs.Filter(logs, MoodOn(date)), Seqs.Filter(logs[1..], MoodOn(date)));
  }

  lemma {:induction false} MoodPairsOnKept(kept: bool, l: MedicationLog, pairs: seq<(string, int)>, rest: seq<(string, int)>,
                        moods: seq<MedicationLog>, others: seq<MedicationLog>)
    requires Groups.Values(rest) == Seqs.Map(others, MoodValue)
    requires pairs == (if kept then [DatedMood(l)] else []) + rest
    requires moods == (if kept then [l] else []) + others
    ensures Groups.Values(pairs) == Seqs.Map(moods, MoodValue)
  {
    if kept {
      Groups.ValuesPrepend(DatedMood(l), rest);
      Seqs.MapPrepend(l, others, MoodValue);
    } else {
      assert pairs == rest && moods == others;
    }
  }

  /** Each date with a mood appears once, in order of its first mood, and
      holds exactly that date's moods in log order; no group is empty. */
  lemma {:induction false} MoodTrendsGroups(logs: seq<MedicationLog>, date: string)
    ensures var trends := MoodTrends(logs);
            && Groups.Keys(trends) == Groups.Distinct(Groups.Keys(Seqs.Map(Seqs.Filter(logs, HasMood()), DatedMood)))
            && Groups.NoDuplicates(Groups.Keys(trends))
            && Groups.ValuesOf(trends, date) == Seqs.Map(Seqs.Filter(logs, MoodOn(date)), MoodValue)
            && forall j :: 0 <= j < |trends| ==> trends[j].1 != []
  {
    var pairs := Seqs.Map(Seqs.Filter(logs, HasMood()), DatedMood);
    Groups.GroupKeys(pairs);
    Groups.GroupValues(pairs, date);
    Groups.GroupsNonEmpty(pairs);
    MoodPairsOn(logs, date);
  }

  function DayMood(group: (string, seq<int>)): (string, real)
  {
    (group.0, Seqs.Mean(group.1))
  }

  /** `avgMoodByDay`: each date of `moodTrends` with the mean of its moods. */
  function AvgMoodByDay(logs: seq<MedicationLog>): (r: seq<(string, real)>)
    ensures |r| == |MoodTrends(logs)|
    ensures Groups.Keys(r) == Groups.Keys(MoodTrends(logs))
  {
    var trends := MoodTrends(logs);
    var r := Seqs.Map(trends, DayMood);
    assert forall j :: 0 <= j < |r| ==> Groups.Keys(r)[j] == Groups.Keys(trends)[j];
    r
  }

  /** Moods on the 1..5 scale average to a value on that scale, for
      every day listed. */
  lemma {:induction false} AvgMoodOnScale(logs: seq<MedicationLog>)
    requires forall i :: 0 <= i < |logs| && logs[i].mood.Some? ==> 1 <= logs[i].mood.value <= 5
    ensures forall j :: 0 <= j < |AvgMoodByDay(logs)| ==> 1.0 <= AvgMoodByDay(logs)[j].1 <= 5.0
  {
    var trends := MoodTrends(logs);
    var pairs := Seqs.Map(Seqs.Filter(logs, HasMood()), DatedMood);
    Groups.GroupsNonEmpty(pairs);
    forall j | 0 <= j < |trends| ensures 1.0 <= AvgMoodByDay(logs)[j].1 <= 5.0 {
      var date := trends[j].0;
      Groups.GroupValues(pairs, date);
      assert Groups.Keys(trends)[j] == date;
      var i := Groups.IndexOf(trends, date);
      assert i == j by {
        if i < j {
          GroupsDistinct(pairs, i, j);
        }
      }
      var moods := Seqs.Filter(pairs, Groups.KeyIs(date));
      forall m | 0 <= m < |moods| ensures 1 <= Groups.Values(moods)[m] <= 5 {
        assert moods[m] in pairs;
        var k :| 0 <= k < |pairs| && pairs[k] == moods[m];
        var f := Seqs.Filter(logs, HasMood());
        assert f[k] in logs;
      }
      Seqs.MeanBounds(trends[j].1, 1, 5);
    }
  }

  /** Each day's average is the arithmetic mean of the non-zero moods
      logged on that date, of which there is at least one. */
  lemma {:induction false} AvgMoodIsMean(logs: seq<MedicationLog>, j: nat)
    requires j < |AvgMoodByDay(logs)|
    ensures var day := AvgMoodByDay(logs)[j];
            var moods := Seqs.Map(Seqs.Filter(logs, MoodOn(day.0)), MoodValue);
            moods != [] && day.1 == Seqs.Sum(moods) as real / |moods| as real
  {
    var trends := MoodTrends(logs);
    var date := trends[j].0;
    MoodTrendsGroups(logs, date);
    assert Groups.Keys(trends)[j] == date;
    assert Groups.IndexOf(trends, date) == j;
    assert AvgMoodByDay(logs)[j] == DayMood(trends[j]);
  }

  lemma {:induction false} GroupsDistinct(pairs: seq<(string, int)>, i: nat, j: nat)
    requires i < j < |Groups.GroupBy(pairs)|
    ensures Groups.GroupBy(pairs)[i].0 != Groups.GroupBy(pairs)[j].0
  {
    Groups.GroupKeys(pairs);
    var ks := Groups.Keys(Groups.GroupBy(pairs));
    assert ks[i] != ks[j];
  }
}
