/** The two records the tracker stores (app/page.tsx): a medication and
    a dose-log entry, and the counts over them that several views share. */
module Domain {
  import Seqs

  /** A JavaScript optional property: absent (`undefined`) or present. */
  datatype Option<T> = None | Some(value: T)

  /** One entry of the `medications` collection. `times` holds "HH:MM"
      reminder times. `category` is declared as a required string, but the
      add dialog never supplies one, so at run time it may be absent. */
  datatype Medication = Medication(
    id: string,
    name: string,
    dosage: string,
    frequency: string,
    times: seq<string>,
    startDate: string,
    endDate: Option<string>,
    instructions: Option<string>,
    color: string,
    category: Option<string>,
    sideEffects: Option<seq<string>>,
    refillDate: Option<string>)

  /** One entry of the `logs` collection, identified by the composite key
      (medicationId, date, time). `takenAt` is an ISO timestamp. */
  datatype MedicationLog = MedicationLog(
    medicationId: string,
    date: string,
    time: string,
    taken: bool,
    takenAt: Option<string>,
    mood: Option<int>,
    sideEffects: Option<seq<string>>)

  /** Number of dose slots: one per (medication, reminder time) pair,
      repeated times included. */
  function SlotCount(meds: seq<Medication>): nat
  {
    if meds == [] then 0 else |meds[0].times| + SlotCount(meds[1..])
  }

  lemma {:induction false} SlotCountAppend(a: seq<Medication>, b: seq<Medication>)
    ensures SlotCount(a + b) == SlotCount(a) + SlotCount(b)
  {
    if a == [] {
      assert a + b == b;
    } else {
      assert (a + b)[0] == a[0] && (a + b)[1..] == a[1..] + b;
      SlotCountAppend(a[1..], b);
    }
  }

  /** There are no slots exactly when no medication has a reminder time. */
  lemma {:induction false} SlotCountZero(meds: seq<Medication>)
    ensures SlotCount(meds) == 0 <==> forall i :: 0 <= i < |meds| ==> meds[i].times == []
  {
    if meds != [] {
      SlotCountZero(meds[1..]);
      assert forall i :: 1 <= i < |meds| ==> meds[i] == meds[1..][i - 1];
    }
  }

  /** The predicate `log.date === date && log.taken`. */
  function TakenOn(date: string): MedicationLog -> bool
  {
    (log: MedicationLog) => log.date == date && log.taken
  }

  /** `logs.filter(log => log.date === date && log.taken).length`. */
  function TakenCount(logs: seq<MedicationLog>, date: string): (n: nat)
    ensures n <= |logs|
  {
    Seqs.Count(logs, TakenOn(date))
  }

  /** `whole > 0 ? (part / whole) * 100 : 0`, in exact arithmetic. */
  function Percentage(part: nat, whole: nat): (r: real)
    ensures r >= 0.0
    ensures whole == 0 ==> r == 0.0
    ensures whole > 0 ==> (r <= 100.0 <==> part <= whole)
    ensures whole > 0 ==> (r == 100.0 <==> part == whole)
    ensures r == 0.0 <==> part == 0 || whole == 0
  {
    if whole > 0 then (part as real / whole as real) * 100.0 else 0.0
  }
}
