/** The application state of app/page.tsx: the `medications` and `logs`
    collections and the four operations that replace them, together with
    the statistics shown in the header. */
module Store {
  import opened Domain
  import Seqs

  // ---------------------------------------------------------------- add

  /** `Omit<Medication, "id">`: what the add dialog hands over. */
  datatype MedicationDraft = MedicationDraft(
    name: string,
    dosage: string,
    frequency: string,
    times: seq<string>,
    startDate: string,
    endDate: Option<string>,
    instructions: Option<string>,
    color: string,
    category: Option<string>,
    sideEffects: Option<seq<string>>,
    refillDate: Option<string>)

  function DraftOf(m: Medication): MedicationDraft
  {
    MedicationDraft(m.name, m.dosage, m.frequency, m.times, m.startDate, m.endDate,
                    m.instructions, m.color, m.category, m.sideEffects, m.refillDate)
  }

  /** `{ ...medication, id }`: the draft with the supplied id; dropping the
      id again gives back the draft. */
  function WithId(d: MedicationDraft, id: string): (m: Medication)
    ensures m.id == id && DraftOf(m) == d
  {
    Medication(id, d.name, d.dosage, d.frequency, d.times, d.startDate, d.endDate,
               d.instructions, d.color, d.category, d.sideEffects, d.refillDate)
  }

  // ---------------------------------------------------------------- update

  /** `Partial<Medication>`: `None` is a key the patch does not have. For an
      optional field, `Some(None)` is a key present with value `undefined`. */
  datatype MedicationPatch = MedicationPatch(
    id: Option<string>,
    name: Option<string>,
    dosage: Option<string>,
    frequency: Option<string>,
    times: Option<seq<string>>,
    startDate: Option<string>,
    endDate: Option<Option<string>>,
    instructions: Option<Option<string>>,
    color: Option<string>,
    category: Option<Option<string>>,
    sideEffects: Option<Option<seq<string>>>,
    refillDate: Option<Option<string>>)

  const NoChanges: MedicationPatch :=
    MedicationPatch(None, None, None, None, None, None, None, None, None, None, None, None)

  function Pick<T>(update: Option<T>, current: T): T
  {
    if update.Some? then update.value else current
  }

  /** `{ ...med, ...updates }`. */
  function Merge(m: Medication, p: MedicationPatch): (r: Medication)
    ensures p == NoChanges ==> r == m
  {
    Medication(Pick(p.id, m.id), Pick(p.name, m.name), Pick(p.dosage, m.dosage),
               Pick(p.frequency, m.frequency), Pick(p.times, m.times),
               Pick(p.startDate, m.startDate), Pick(p.endDate, m.endDate),
               Pick(p.instructions, m.instructions), Pick(p.color, m.color),
               Pick(p.category, m.category), Pick(p.sideEffects, m.sideEffects),
               Pick(p.refillDate, m.refillDate))
  }

  function OrElse<T>(first: Option<T>, second: Option<T>): Option<T>
  {
    if first.Some? then first else second
  }

  /** `{ ...p, ...q }`: the patch with the keys of both, `q` winning. */
  function Then(p: MedicationPatch, q: MedicationPatch): MedicationPatch
  {
    MedicationPatch(OrElse(q.id, p.id), OrElse(q.name, p.name), OrElse(q.dosage, p.dosage),
                    OrElse(q.frequency, p.frequency), OrElse(q.times, p.times),
                    OrElse(q.startDate, p.startDate), OrElse(q.endDate, p.endDate),
                    OrElse(q.instructions, p.instructions), OrElse(q.color, p.color),
                    OrElse(q.category, p.category), OrElse(q.sideEffects, p.sideEffects),
                    OrElse(q.refillDate, p.refillDate))
  }

  /** A patched field takes the patch's value (for an optional field, an
      explicit `undefined` included); every other field keeps its value. */
  lemma {:induction false} MergeFields(m: Medication, p: MedicationPatch)
    ensures p.id.Some? ==> Merge(m, p).id == p.id.value
    ensures p.id.None? ==> Merge(m, p).id == m.id
    ensures p.name.Some? ==> Merge(m, p).name == p.name.value
    ensures p.name.None? ==> Merge(m, p).name == m.name
    ensures p.dosage.Some? ==> Merge(m, p).dosage == p.dosage.value
    ensures p.dosage.None? ==> Merge(m, p).dosage == m.dosage
    ensures p.frequency.Some? ==> Merge(m, p).frequency == p.frequency.value
    ensures p.frequency.None? ==> Merge(m, p).frequency == m.frequency
    ensures p.times.Some? ==> Merge(m, p).times == p.times.value
    ensures p.times.None? ==> Merge(m, p).times == m.times
    ensures p.startDate.Some? ==> Merge(m, p).startDate == p.startDate.value
    ensures p.startDate.None? ==> Merge(m, p).startDate == m.startDate
    ensures p.endDate.Some? ==> Merge(m, p).endDate == p.endDate.value
    ensures p.endDate.None? ==> Merge(m, p).endDate == m.endDate
    ensures p.instructions.Some? ==> Merge(m, p).instructions == p.instructions.value
    ensures p.instructions.None? ==> Merge(m, p).instructions == m.instructions
    ensures p.color.Some? ==> Merge(m, p).color == p.color.value
    ensures p.color.None? ==> Merge(m, p).color == m.color
    ensures p.category.Some? ==> Merge(m, p).category == p.category.value
    ensures p.category.None? ==> Merge(m, p).category == m.category
    ensures p.sideEffects.Some? ==> Merge(m, p).sideEffects == p.sideEffects.value
    ensures p.sideEffects.None? ==> Merge(m, p).sideEffects == m.sideEffects
    ensures p.refillDate.Some? ==> Merge(m, p).refillDate == p.refillDate.value
    ensures p.refillDate.None? ==> Merge(m, p).refillDate == m.refillDate
  {
  }

  /** Applying the same patch twice is applying it once. */
  lemma {:induction false} MergeIdempotent(m: Medication, p: MedicationPatch)
    ensures Merge(Merge(m, p), p) == Merge(m, p)
  {
  }

  /** Two successive patches act as their spread-combination. */
  lemma {:induction false} MergeThen(m: Medication, p: MedicationPatch, q: MedicationPatch)
    ensures Merge(Merge(m, p), q) == Merge(m, Then(p, q))
  {
  }

  /** `prev.map(med => med.id === id ? { ...med, ...updates } : med)`. */
  function UpdateMedications(meds: seq<Medication>, id: string, p: MedicationPatch): (r: seq<Medication>)
    ensures |r| == |meds|
    ensures forall i :: 0 <= i < |meds| && meds[i].id != id ==> r[i] == meds[i]
    ensures forall i :: 0 <= i < |meds| && meds[i].id == id ==> r[i] == Merge(meds[i], p)
  {
    if meds == [] then []
    else [if meds[0].id == id then Merge(meds[0], p) else meds[0]] + UpdateMedications(meds[1..], id, p)
  }

  /** An id no medication has leaves the collection identical. */
  lemma {:induction false} UpdateUnknownId(meds: seq<Medication>, id: string, p: MedicationPatch)
    requires forall i :: 0 <= i < |meds| ==> meds[i].id != id
    ensures UpdateMedications(meds, id, p) == meds
  {
  }

  /** Repeating an update changes nothing more, even when the patch
      changes the id itself. */
  lemma {:induction false} UpdateIdempotent(meds: seq<Medication>, id: string, p: MedicationPatch)
    ensures UpdateMedications(UpdateMedications(meds, id, p), id, p) == UpdateMedications(meds, id, p)
  {
    var once := UpdateMedications(meds, id, p);
    var twice := UpdateMedications(once, id, p);
    forall i | 0 <= i < |meds| ensures twice[i] == once[i] {
      if meds[i].id == id {
        MergeIdempotent(meds[i], p);
      }
    }
  }

  // ---------------------------------------------------------------- delete

  function OtherMedication(id: string): Medication -> bool
  {
    (m: Medication) => m.id != id
  }

  function OtherMedicationLog(id: string): MedicationLog -> bool
  {
    (log: MedicationLog) => log.medicationId != id
  }

  /** `prev.filter(med => med.id !== id)`. */
  function RemoveMedication(meds: seq<Medication>, id: string): (r: seq<Medication>)
    ensures forall i :: 0 <= i < |r| ==> r[i].id != id
    ensures forall i :: 0 <= i < |meds| && meds[i].id != id ==> meds[i] in r
  {
    Seqs.Filter(meds, OtherMedication(id))
  }

  /** `prev.filter(log => log.medicationId !== id)`: the cascade. */
  function RemoveLogsOf(logs: seq<MedicationLog>, id: string): (r: seq<MedicationLog>)
    ensures forall i :: 0 <= i < |r| ==> r[i].medicationId != id
    ensures forall i :: 0 <= i < |logs| && logs[i].medicationId != id ==> logs[i] in r
  {
    Seqs.Filter(logs, OtherMedicationLog(id))
  }

  /** Deleting keeps every other medication and log, in the original order,
      and a second delete of the same id changes nothing. */
  lemma {:induction false} DeleteKeepsOrder(meds: seq<Medication>, logs: seq<MedicationLog>, id: string)
    ensures Seqs.IsSubsequence(RemoveMedication(meds, id), meds)
    ensures Seqs.IsSubsequence(RemoveLogsOf(logs, id), logs)
    ensures RemoveMedication(RemoveMedication(meds, id), id) == RemoveMedication(meds, id)
    ensures RemoveLogsOf(RemoveLogsOf(logs, id), id) == RemoveLogsOf(logs, id)
  {
    Seqs.FilterIsSubsequence(meds, OtherMedication(id));
    Seqs.FilterIsSubsequence(logs, OtherMedicationLog(id));
    Seqs.FilterIdempotent(meds, OtherMedication(id));
    Seqs.FilterIdempotent(logs, OtherMedicationLog(id));
  }

  // ---------------------------------------------------------------- mark as taken

  predicate HasKey(log: MedicationLog, medicationId: string, date: string, time: string)
  {
    log.medicationId == medicationId && log.date == date && log.time == time
  }

  /** At most one log entry per composite key. */
  predicate UniqueKeys(logs: seq<MedicationLog>)
  {
    forall i, j :: 0 <= i < j < |logs| ==>
      !HasKey(logs[j], logs[i].medicationId, logs[i].date, logs[i].time)
  }

  /** `logs.find(...)` by composite key: the first matching entry. */
  function FindByKey(logs: seq<MedicationLog>, medicationId: string, date: string, time: string): (r: Option<MedicationLog>)
    ensures r.None? <==> forall i :: 0 <= i < |logs| ==> !HasKey(logs[i], medicationId, date, time)
    ensures r.Some? ==> exists k :: 0 <= k < |logs| && logs[k] == r.value
                          && HasKey(logs[k], medicationId, date, time)
                          && forall j :: 0 <= j < k ==> !HasKey(logs[j], medicationId, date, time)
  {
    if logs == [] then None
    else if HasKey(logs[0], medicationId, date, time) then Some(logs[0])
    else
      var r := FindByKey(logs[1..], medicationId, date, time);
      assert r.Some? ==> exists k :: 1 <= k < |logs| && logs[k] == r.value
                          && HasKey(logs[k], medicationId, date, time)
                          && forall j :: 0 <= j < k ==> !HasKey(logs[j], medicationId, date, time) by {
        if r.Some? {
          var k :| 0 <= k < |logs[1..]| && logs[1..][k] == r.value
                   && HasKey(logs[1..][k], medicationId, date, time)
                   && forall j :: 0 <= j < k ==> !HasKey(logs[1..][j], medicationId, date, time);
          assert forall j :: 1 <= j < k + 1 ==> logs[j] == logs[1..][j - 1];
        }
      }
      r
  }

  /** The entry a mark produces for its key. */
  function TakenEntry(medicationId: string, date: string, time: string,
                      mood: Option<int>, sideEffects: Option<seq<string>>, stamp: string): MedicationLog
  {
    MedicationLog(medicationId, date, time, true, Some(stamp), mood, sideEffects)
  }

  /** `{ ...log, taken: true, takenAt, mood, sideEffects }` on every entry with
      the key; other entries are kept. */
  function RestampMatching(logs: seq<MedicationLog>, medicationId: string, date: string, time: string,
                           mood: Option<int>, sideEffects: Option<seq<string>>, stamp: string): (r: seq<MedicationLog>)
    ensures |r| == |logs|
    ensures forall i :: 0 <= i < |logs| && !HasKey(logs[i], medicationId, date, time) ==> r[i] == logs[i]
    ensures forall i :: 0 <= i < |logs| && HasKey(logs[i], medicationId, date, time) ==>
              r[i] == TakenEntry(medicationId, date, time, mood, sideEffects, stamp)
  {
    if logs == [] then []
    else
      var head := if HasKey(logs[0], medicationId, date, time)
                  then logs[0].(taken := true, takenAt := Some(stamp), mood := mood, sideEffects := sideEffects)
                  else logs[0];
      [head] + RestampMatching(logs[1..], medicationId, date, time, mood, sideEffects, stamp)
  }

  /** `markAsTaken`'s update of the logs: restamp the entries with the key,
      or append a new taken entry when there is none. */
  function MarkTaken(logs: seq<MedicationLog>, medicationId: string, date: string, time: string,
                     mood: Option<int>, sideEffects: Option<seq<string>>, stamp: string): (r: seq<MedicationLog>)
  {
    if FindByKey(logs, medicationId, date, time).Some?
    then RestampMatching(logs, medicationId, date, time, mood, sideEffects, stamp)
    else logs + [TakenEntry(medicationId, date, time, mood, sideEffects, stamp)]
  }

  /** Without an entry for the key, a mark appends exactly one taken entry
      carrying the supplied mood and side effects. */
  lemma {:induction false} MarkTakenAppends(logs: seq<MedicationLog>, medicationId: string, date: string, time: string,
                         mood: Option<int>, sideEffects: Option<seq<string>>, stamp: string)
    requires forall i :: 0 <= i < |logs| ==> !HasKey(logs[i], medicationId, date, time)
    ensures var r := MarkTaken(logs, medicationId, date, time, mood, sideEffects, stamp);
      |r| == |logs| + 1 && r[..|logs|] == logs
      && r[|logs|] == TakenEntry(medicationId, date, time, mood, sideEffects, stamp)
      && r[|logs|].taken && r[|logs|].mood == mood && r[|logs|].sideEffects == sideEffects
  {
  }

  /** With an entry for the key, a mark keeps the length, overwrites every
      matching entry (mood and side effects included, even when absent) and
      leaves the others alone. */
  lemma {:induction false} MarkTakenUpdates(logs: seq<MedicationLog>, medicationId: string, date: string, time: string,
                         mood: Option<int>, sideEffects: Option<seq<string>>, stamp: string)
    requires exists i :: 0 <= i < |logs| && HasKey(logs[i], medicationId, date, time)
    ensures var r := MarkTaken(logs, medicationId, date, time, mood, sideEffects, stamp);
      |r| == |logs|
      && (forall i :: 0 <= i < |logs| && HasKey(logs[i], medicationId, date, time) ==>
            r[i].taken && r[i].mood == mood && r[i].sideEffects == sideEffects && HasKey(r[i], medicationId, date, time))
      && (forall i :: 0 <= i < |logs| && !HasKey(logs[i], medicationId, date, time) ==> r[i] == logs[i])
  {
  }

  /** After a mark, the first entry found for the key is the taken entry. */
  lemma {:induction false} MarkTakenFinds(logs: seq<MedicationLog>, medicationId: string, date: string, time: string,
                                          mood: Option<int>, sideEffects: Option<seq<string>>, stamp: string)
    ensures FindByKey(MarkTaken(logs, medicationId, date, time, mood, sideEffects, stamp), medicationId, date, time)
            == Some(TakenEntry(medicationId, date, time, mood, sideEffects, stamp))
  {
    var r := MarkTaken(logs, medicationId, date, time, mood, sideEffects, stamp);
    var e := TakenEntry(medicationId, date, time, mood, sideEffects, stamp);
    if FindByKey(logs, medicationId, date, time).None? {
      assert HasKey(r[|logs|], medicationId, date, time);
    } else {
      var k :| 0 <= k < |logs| && HasKey(logs[k], medicationId, date, time);
      assert HasKey(r[k], medicationId, date, time);
    }
    var f := FindByKey(r, medicationId, date, time);
    var k :| 0 <= k < |r| && r[k] == f.value && HasKey(r[k], medicationId, date, time);
    assert r[k] == e;
  }

  /** A mark does not change what is found under any other key. */
  lemma {:induction false} MarkTakenOtherKeys(logs: seq<MedicationLog>, medicationId: string, date: string, time: string,
                                              mood: Option<int>, sideEffects: Option<seq<string>>, stamp: string,
                                              id2: string, date2: string, time2: string)
    requires id2 != medicationId || date2 != date || time2 != time
    ensures FindByKey(MarkTaken(logs, medicationId, date, time, mood, sideEffects, stamp), id2, date2, time2)
            == FindByKey(logs, id2, date2, time2)
  {
    if FindByKey(logs, medicationId, date, time).Some? {
      FindAgree(RestampMatching(logs, medicationId, date, time, mood, sideEffects, stamp), logs, id2, date2, time2);
    } else {
      FindAppendMiss(logs, TakenEntry(medicationId, date, time, mood, sideEffects, stamp), id2, date2, time2);
    }
  }

  /** Two collections that agree on every entry with a key find the same entry. */
  lemma {:induction false} FindAgree(a: seq<MedicationLog>, b: seq<MedicationLog>, medicationId: string, date: string, time: string)
    requires |a| == |b|
    requires forall i :: 0 <= i < |a| ==> (HasKey(a[i], medicationId, date, time) <==> HasKey(b[i], medicationId, date, time))
    requires forall i :: 0 <= i < |a| && HasKey(a[i], medicationId, date, time) ==> a[i] == b[i]
    ensures FindByKey(a, medicationId, date, time) == FindByKey(b, medicationId, date, time)
  {
    if a != [] && !HasKey(a[0], medicationId, date, time) {
      FindAgree(a[1..], b[1..], medicationId, date, time);
    }
  }

  /** Appending an entry with another key does not change what is found. */
  lemma {:induction false} FindAppendMiss(a: seq<MedicationLog>, e: MedicationLog, medicationId: string, date: string, time: string)
    requires !HasKey(e, medicationId, date, time)
    ensures FindByKey(a + [e], medicationId, date, time) == FindByKey(a, medicationId, date, time)
  {
    if a == [] {
      assert FindByKey([e][1..], medicationId, date, time) == None;
    } else {
      assert (a + [e])[0] == a[0] && (a + [e])[1..] == a[1..] + [e];
      FindAppendMiss(a[1..], e, medicationId, date, time);
    }
  }

  /** A mark keeps "at most one entry per key". */
  lemma {:induction false} MarkTakenKeepsKeysUnique(logs: seq<MedicationLog>, medicationId: string, date: string, time: string,
                                 mood: Option<int>, sideEffects: Option<seq<string>>, stamp: string)
    requires UniqueKeys(logs)
    ensures UniqueKeys(MarkTaken(logs, medicationId, date, time, mood, sideEffects, stamp))
  {
    var r := MarkTaken(logs, medicationId, date, time, mood, sideEffects, stamp);
    if FindByKey(logs, medicationId, date, time).Some? {
      forall i, j | 0 <= i < j < |r|
        ensures !HasKey(r[j], r[i].medicationId, r[i].date, r[i].time)
      {
        assert HasKey(r[i], logs[i].medicationId, logs[i].date, logs[i].time);
        assert HasKey(r[j], logs[j].medicationId, logs[j].date, logs[j].time);
      }
    }
  }

  /** Marking the same key twice is marking it once with the later values:
      one entry, not two, and the last write wins. */
  lemma {:induction false} MarkTakenTwice(logs: seq<MedicationLog>, medicationId: string, date: string, time: string,
                       mood1: Option<int>, sideEffects1: Option<seq<string>>, stamp1: string,
                       mood2: Option<int>, sideEffects2: Option<seq<string>>, stamp2: string)
    ensures MarkTaken(MarkTaken(logs, medicationId, date, time, mood1, sideEffects1, stamp1),
                      medicationId, date, time, mood2, sideEffects2, stamp2)
            == MarkTaken(logs, medicationId, date, time, mood2, sideEffects2, stamp2)
  {
    var once := MarkTaken(logs, medicationId, date, time, mood1, sideEffects1, stamp1);
    MarkTakenFinds(logs, medicationId, date, time, mood1, sideEffects1, stamp1);
    var twice := MarkTaken(once, medicationId, date, time, mood2, sideEffects2, stamp2);
    var direct := MarkTaken(logs, medicationId, date, time, mood2, sideEffects2, stamp2);
    assert |twice| == |direct|;
    forall i | 0 <= i < |twice| ensures twice[i] == direct[i] {
      if i < |logs| && !HasKey(logs[i], medicationId, date, time) {
        assert once[i] == logs[i];
      }
    }
  }

  // ---------------------------------------------------------------- statistics

  datatype TodayStatsResult = TodayStatsResult(taken: nat, total: nat, percentage: real)

  /** `getTodayStats`: taken doses logged today against scheduled slots. */
  function TodayStats(meds: seq<Medication>, logs: seq<MedicationLog>, today: string): (s: TodayStatsResult)
    ensures s.total == SlotCount(meds)
    ensures s.taken == Seqs.Count(logs, TakenOn(today))
    ensures s.total == 0 ==> s.percentage == 0.0
    ensures s.percentage >= 0.0
    ensures s.total > 0 ==> (s.percentage <= 100.0 <==> s.taken <= s.total)
  {
    var taken := TakenCount(logs, today);
    var total := SlotCount(meds);
    TodayStatsResult(taken, total, Percentage(taken, total))
  }

  /** The store: the two collections, replaced by each mutation. */
  class MedicationStore {
    var medications: seq<Medication>
    var logs: seq<MedicationLog>

    /** The collections as loaded from storage (empty when nothing was saved). */
    constructor (medications: seq<Medication>, logs: seq<MedicationLog>)
      ensures this.medications == medications && this.logs == logs
    {
      this.medications := medications;
      this.logs := logs;
    }

    method AddMedication(draft: MedicationDraft, id: string)
      modifies this
      ensures |medications| == |old(medications)| + 1
      ensures medications[..|old(medications)|] == old(medications)
      ensures medications[|old(medications)|] == WithId(draft, id)
      ensures logs == old(logs)
    {
      medications := medications + [WithId(draft, id)];
    }

    method UpdateMedication(id: string, updates: MedicationPatch)
      modifies this
      ensures medications == UpdateMedications(old(medications), id, updates)
      ensures logs == old(logs)
    {
      medications := UpdateMedications(medications, id, updates);
    }

    method DeleteMedication(id: string)
      modifies this
      ensures medications == RemoveMedication(old(medications), id)
      ensures logs == RemoveLogsOf(old(logs), id)
      ensures forall i :: 0 <= i < |medications| ==> medications[i].id != id
      ensures forall i :: 0 <= i < |logs| ==> logs[i].medicationId != id
      ensures UniqueKeys(old(logs)) ==> UniqueKeys(logs)
    {
      medications := RemoveMedication(medications, id);
      ghost var before := logs;
      logs := RemoveLogsOf(logs, id);
      Seqs.FilterIsSubsequence(before, OtherMedicationLog(id));
      SubsequenceKeepsKeysUnique(logs, before);
    }

    method MarkAsTaken(medicationId: string, date: string, time: string,
                       mood: Option<int>, sideEffects: Option<seq<string>>, stamp: string)
      modifies this
      ensures logs == MarkTaken(old(logs), medicationId, date, time, mood, sideEffects, stamp)
      ensures medications == old(medications)
      ensures UniqueKeys(old(logs)) ==> UniqueKeys(logs)
    {
      ghost var before := logs;
      logs := MarkTaken(logs, medicationId, date, time, mood, sideEffects, stamp);
      if UniqueKeys(before) {
        MarkTakenKeepsKeysUnique(before, medicationId, date, time, mood, sideEffects, stamp);
      }
    }
  }

  /** Dropping entries cannot create two entries with one key. */
  lemma {:induction false} SubsequenceKeepsKeysUnique(sub: seq<MedicationLog>, logs: seq<MedicationLog>)
    requires Seqs.IsSubsequence(sub, logs)
    ensures UniqueKeys(logs) ==> UniqueKeys(sub)
  {
    if sub != [] && logs != [] && UniqueKeys(logs) {
      assert UniqueKeys(logs[1..]);
      if sub[0] == logs[0] {
        SubsequenceKeepsKeysUnique(sub[1..], logs[1..]);
        SubsequenceMembers(sub[1..], logs[1..]);
        forall j | 0 < j < |sub|
          ensures !HasKey(sub[j], sub[0].medicationId, sub[0].date, sub[0].time)
        {
          assert sub[1..][j - 1] == sub[j];
          var k :| 0 <= k < |logs[1..]| && logs[1..][k] == sub[j];
        }
      } else {
        SubsequenceKeepsKeysUnique(sub, logs[1..]);
      }
    }
  }

  lemma {:induction false} SubsequenceMembers<T>(sub: seq<T>, s: seq<T>)
    requires Seqs.IsSubsequence(sub, s)
    ensures forall i :: 0 <= i < |sub| ==> sub[i] in s
  {
    if sub != [] && s != [] {
      if sub[0] == s[0] {
        SubsequenceMembers(sub[1..], s[1..]);
        assert forall i :: 1 <= i < |sub| ==> sub[i] == sub[1..][i - 1];
      } else {
        SubsequenceMembers(sub, s[1..]);
      }
    }
  }
}
