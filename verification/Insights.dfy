/** The health-insights aggregations (components/health-insights.tsx): the
    share of log entries taken, the mean mood, side-effect frequencies and
    the most common one, medications per category, refills due within a
    week and the number of medications still active. Dates are turned into
    millisecond timestamps by `parseDate`, which gives no value for a date
    JavaScript cannot parse; `now` is the current timestamp. */
module Insights {
  import opened Domain
  import Seqs
  import Groups
  import Sorting
  import Analytics

  // ---------------------------------------------------------------- adherence and mood

  /** `adherenceRate`: the taken share of all log entries, 0 without entries. */
  function AdherenceRate(logs: seq<MedicationLog>): (r: real)
    ensures 0.0 <= r <= 100.0
    ensures logs == [] ==> r == 0.0
    ensures r == 100.0 <==> logs != [] && forall i :: 0 <= i < |logs| ==> logs[i].taken
    ensures r == 0.0 <==> forall i :: 0 <= i < |logs| ==> !logs[i].taken
  {
    Percentage(Seqs.Count(logs, Analytics.IsTaken()), |logs|)
  }

  /** `moodData`: the truthy moods, in log order. */
  function MoodData(logs: seq<MedicationLog>): (r: seq<int>)
    ensures |r| <= |logs|
    ensures forall i :: 0 <= i < |r| ==> r[i] != 0
  {
    var withMood := Seqs.Filter(logs, Analytics.HasMood());
    Seqs.Map(withMood, Analytics.MoodValue)
  }

  /** `avgMood`: the mean of the truthy moods, 0 when there are none. */
  function AvgMood(logs: seq<MedicationLog>): real
  {
    Seqs.Mean(MoodData(logs))
  }

  /** With moods on the 1..5 scale, the average is on that scale once any
      mood was logged, and 0 before. */
  lemma {:induction false} AvgMoodRange(logs: seq<MedicationLog>)
    requires forall i :: 0 <= i < |logs| && logs[i].mood.Some? ==> 1 <= logs[i].mood.value <= 5
    ensures MoodData(logs) == [] ==> AvgMood(logs) == 0.0
    ensures MoodData(logs) != [] ==> 1.0 <= AvgMood(logs) <= 5.0
    ensures MoodData(logs) == [] <==> forall i :: 0 <= i < |logs| ==> logs[i].mood.None? || logs[i].mood.value == 0
  {
    var withMood := Seqs.Filter(logs, Analytics.HasMood());
    var moods := MoodData(logs);
    forall i | 0 <= i < |moods| ensures 1 <= moods[i] <= 5 {
      assert withMood[i] in logs;
    }
    if moods != [] {
      Seqs.MeanBounds(moods, 1, 5);
    }
    assert |withMood| == 0 <==> forall i :: 0 <= i < |logs| ==> !Analytics.HasMood()(logs[i]);
  }

  // ---------------------------------------------------------------- side effects

  function EffectsOf(log: MedicationLog): seq<string>
  {
    if log.sideEffects.Some? then log.sideEffects.value else []
  }

  /** `logs.flatMap(log => log.sideEffects || [])`. */
  function ReportedEffects(logs: seq<MedicationLog>): seq<string>
  {
    Seqs.Flatten(Seqs.Map(logs, EffectsOf))
  }

  /** `sideEffectsFrequency`. */
  function SideEffectsFrequency(logs: seq<MedicationLog>): seq<(string, nat)>
  {
    Groups.Tally(ReportedEffects(logs))
  }

  /** Every reported effect has one entry, in order of first report, whose
      count is the number of times it was reported; the counts add up to
      the number of reports. */
  lemma {:induction false} SideEffectsFrequencyCounts(logs: seq<MedicationLog>, effect: string)
    ensures var freq := SideEffectsFrequency(logs);
            && Groups.Keys(freq) == Groups.Distinct(ReportedEffects(logs))
            && Groups.NoDuplicates(Groups.Keys(freq))
            && Groups.CountOf(freq, effect) == multiset(ReportedEffects(logs))[effect]
            && Groups.Total(freq) == |ReportedEffects(logs)|
  {
    Groups.TallyKeys(ReportedEffects(logs));
    Groups.TallyCount(ReportedEffects(logs), effect);
    Groups.TallyTotal(ReportedEffects(logs));
  }

  /** The comparator `([, a], [, b]) => b - a`: higher counts first. */
  function ByCountDescending(): ((string, nat), (string, nat)) -> bool
  {
    (a: (string, nat), b: (string, nat)) => a.1 >= b.1
  }

  /** `mostCommonSideEffect`: the first entry after sorting by descending
      count, absent when nothing was reported. */
  function MostCommonSideEffect(logs: seq<MedicationLog>): Option<(string, nat)>
  {
    var sorted := Sorting.Sort(SideEffectsFrequency(logs), ByCountDescending());
    if sorted == [] then None else Some(sorted[0])
  }

  /** The most common side effect is absent exactly when no effect was
      reported; otherwise it is an entry of the frequency table with the
      highest count, and the first such entry in the table's order. */
  lemma {:induction false} MostCommonIsFirstMaximum(logs: seq<MedicationLog>)
    ensures MostCommonSideEffect(logs).None? <==> ReportedEffects(logs) == []
    ensures var freq := SideEffectsFrequency(logs);
            MostCommonSideEffect(logs).Some? ==>
              exists j :: 0 <= j < |freq| && freq[j] == MostCommonSideEffect(logs).value
                          && (forall i :: 0 <= i < |freq| ==> freq[i].1 <= freq[j].1)
                          && (forall i :: 0 <= i < j ==> freq[i].1 < freq[j].1)
  {
    var freq := SideEffectsFrequency(logs);
    Groups.TallyTotal(ReportedEffects(logs));
    assert freq == [] <==> ReportedEffects(logs) == [];
    if freq != [] {
      SortedHeadIsFirstMaximum(freq);
    }
  }

  /** Sorting by descending count puts first the first entry with the
      highest count. */
  lemma {:induction false} SortedHeadIsFirstMaximum(freq: seq<(string, nat)>)
    requires freq != []
    ensures var h := Sorting.Sort(freq, ByCountDescending())[0];
            exists j :: 0 <= j < |freq| && freq[j] == h
                        && (forall i :: 0 <= i < |freq| ==> freq[i].1 <= freq[j].1)
                        && (forall i :: 0 <= i < j ==> freq[i].1 < freq[j].1)
  {
    ByCountDescendingPreorder();
    Sorting.SortHeadIsFirstLeast(freq, ByCountDescending());
  }

  lemma {:induction false} ByCountDescendingPreorder()
    ensures Sorting.TotalPreorder(ByCountDescending())
  {
  }

  // ---------------------------------------------------------------- categories

  /** The property name `acc[med.category]` writes: a missing category is
      the key "undefined". */
  function CategoryKey(m: Medication): string
  {
    if m.category.Some? then m.category.value else "undefined"
  }

  /** `medicationsByCategory`. */
  function MedicationsByCategory(meds: seq<Medication>): seq<(string, nat)>
  {
    Groups.Tally(Seqs.Map(meds, CategoryKey))
  }

  /** Each category is listed once, counts its medications, and the counts
      add up to the number of medications. */
  lemma {:induction false} CategoryCountsAddUp(meds: seq<Medication>, category: string)
    ensures var byCategory := MedicationsByCategory(meds);
            && Groups.NoDuplicates(Groups.Keys(byCategory))
            && Groups.CountOf(byCategory, category) == multiset(Seqs.Map(meds, CategoryKey))[category]
            && Groups.Total(byCategory) == |meds|
  {
    var keys := Seqs.Map(meds, CategoryKey);
    Groups.TallyKeys(keys);
    Groups.TallyCount(keys, category);
    Groups.TallyTotal(keys);
  }

  // ---------------------------------------------------------------- refills

  const MillisPerDay: int := 1000 * 60 * 60 * 24

  /** `Math.ceil(a / b)` for a positive divisor: the least `c` with `a <= b * c`. */
  function CeilDiv(a: int, b: int): (c: int)
    requires b > 0
    ensures b * (c - 1) < a <= b * c
  {
    -((-a) / b)
  }

  /** Days until the refill date, rounded up; none when the medication has
      no refill date or the date does not parse. An empty string counts as
      no refill date. */
  function DaysUntilRefill(m: Medication, parseDate: string -> Option<int>, now: int): Option<int>
  {
    if m.refillDate.Some? && m.refillDate.value != "" && parseDate(m.refillDate.value).Some?
    then Some(CeilDiv(parseDate(m.refillDate.value).value - now, MillisPerDay))
    else None
  }

  /** Kept by `upcomingRefills`: a refill date at most seven days away,
      including dates already past. */
  function DueSoon(parseDate: string -> Option<int>, now: int): Medication -> bool
  {
    (m: Medication) => DaysUntilRefill(m, parseDate, now).Some? && DaysUntilRefill(m, parseDate, now).value <= 7
  }

  datatype Refill = Refill(medication: Medication, daysUntilRefill: int)

  function RefillOf(parseDate: string -> Option<int>, now: int): Medication -> Refill
  {
    (m: Medication) =>
      var days := DaysUntilRefill(m, parseDate, now);
      Refill(m, if days.Some? then days.value else 0)
  }

  /** `(a, b) => a.daysUntilRefill - b.daysUntilRefill`: soonest first. */
  function BySoonest(): (Refill, Refill) -> bool
  {
    (a: Refill, b: Refill) => a.daysUntilRefill <= b.daysUntilRefill
  }

  lemma {:induction false} BySoonestIsTotalPreorder()
    ensures Sorting.TotalPreorder(BySoonest())
  {
  }

  /** The due refills in medication order, before sorting. */
  function DueRefills(meds: seq<Medication>, parseDate: string -> Option<int>, now: int): seq<Refill>
  {
    Seqs.Map(Seqs.Filter(meds, DueSoon(parseDate, now)), RefillOf(parseDate, now))
  }

  /** `upcomingRefills`. */
  function UpcomingRefills(meds: seq<Medication>, parseDate: string -> Option<int>, now: int): seq<Refill>
  {
    Sorting.Sort(DueRefills(meds, parseDate, now), BySoonest())
  }

  /** Every listed refill is a medication with a parsable refill date at
      most seven days away (overdue ones included), carrying the rounded-up
      day count; every such medication is listed; the list is ordered
      soonest first, and refills due the same day keep medication order. */
  lemma {:induction false} UpcomingRefillsSpec(meds: seq<Medication>, parseDate: string -> Option<int>, now: int)
    ensures var r := UpcomingRefills(meds, parseDate, now);
            && (forall i :: 0 <= i < |r| ==>
                  && r[i].medication in meds
                  && DaysUntilRefill(r[i].medication, parseDate, now) == Some(r[i].daysUntilRefill)
                  && r[i].daysUntilRefill <= 7)
            && (forall i :: 0 <= i < |meds| && DueSoon(parseDate, now)(meds[i]) ==>
                  Refill(meds[i], DaysUntilRefill(meds[i], parseDate, now).value) in r)
            && multiset(r) == multiset(DueRefills(meds, parseDate, now))
            && Sorting.Sorted(r, BySoonest())
            && forall z :: Sorting.Ties(r, z, BySoonest()) == Sorting.Ties(DueRefills(meds, parseDate, now), z, BySoonest())
  {
    var due := Seqs.Filter(meds, DueSoon(parseDate, now));
    var items := DueRefills(meds, parseDate, now);
    var r := UpcomingRefills(meds, parseDate, now);
    BySoonestIsTotalPreorder();
    Sorting.SortSorted(items, BySoonest());
    forall z ensures Sorting.Ties(r, z, BySoonest()) == Sorting.Ties(items, z, BySoonest()) {
      Sorting.SortStable(items, z, BySoonest());
    }
    forall i | 0 <= i < |r|
      ensures r[i].medication in meds
      ensures DaysUntilRefill(r[i].medication, parseDate, now) == Some(r[i].daysUntilRefill)
      ensures r[i].daysUntilRefill <= 7
    {
      assert r[i] in multiset(items);
      var k :| 0 <= k < |items| && items[k] == r[i];
      assert DueSoon(parseDate, now)(due[k]) && due[k] in meds;
    }
    forall i | 0 <= i < |meds| && DueSoon(parseDate, now)(meds[i])
      ensures Refill(meds[i], DaysUntilRefill(meds[i], parseDate, now).value) in r
    {
      assert meds[i] in due;
      var k :| 0 <= k < |due| && due[k] == meds[i];
      assert items[k] in multiset(r);
    }
  }

  // ---------------------------------------------------------------- active medications

  /** Still active: no end date (or an empty one), or an end date that
      parses to a moment after now. */
  function IsActive(parseDate: string -> Option<int>, now: int): Medication -> bool
  {
    (m: Medication) =>
      m.endDate.None? || m.endDate.value == ""
      || (parseDate(m.endDate.value).Some? && parseDate(m.endDate.value).value > now)
  }

  /** `activeMedications`, next to `totalMedications`. */
  function ActiveMedications(meds: seq<Medication>, parseDate: string -> Option<int>, now: int): (n: nat)
    ensures n <= |meds|
    ensures n == |meds| <==> forall i :: 0 <= i < |meds| ==> IsActive(parseDate, now)(meds[i])
    ensures n == 0 <==> forall i :: 0 <= i < |meds| ==> !IsActive(parseDate, now)(meds[i])
  {
    Seqs.Count(meds, IsActive(parseDate, now))
  }

  /** A medication without an end date is always active, so adding one
      raises both the total and the active count by one. */
  lemma {:induction false} AddingOpenEndedMedication(meds: seq<Medication>, m: Medication, parseDate: string -> Option<int>, now: int)
    requires m.endDate.None?
    ensures ActiveMedications(meds + [m], parseDate, now) == ActiveMedications(meds, parseDate, now) + 1
  {
    Seqs.CountConcat(meds, [m], IsActive(parseDate, now));
    assert Seqs.Count([m], IsActive(parseDate, now)) == 1 + Seqs.Count([m][1..], IsActive(parseDate, now));
  }
}
