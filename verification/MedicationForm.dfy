/** The add-medication form (components/add-medication-dialog.tsx): the
    `formData` state, its list of reminder-time slots edited by index, and
    the validation that turns it into a new medication on submit. */
module MedicationForm {
  import opened Domain
  import Seqs
  import Text
  import Store

  /** `colors[0]`, the colour a new form starts with. */
  const DefaultColor: string := "#3B82F6"

  /** The `formData` state. Every field is a string as typed; `times` holds
      one entry per time input, blank ones included. */
  datatype FormData = FormData(
    name: string,
    dosage: string,
    frequency: string,
    times: seq<string>,
    startDate: string,
    endDate: string,
    instructions: string,
    color: string)

  /** The form as first shown and as reset after a submit: one empty time
      slot, starting today. */
  function InitialForm(today: string): (f: FormData)
    ensures f.name == "" && f.dosage == "" && f.frequency == ""
    ensures f.times == [""] && f.startDate == today
    ensures f.endDate == "" && f.instructions == "" && f.color == DefaultColor
  {
    FormData("", "", "", [""], today, "", "", DefaultColor)
  }

  // ---------------------------------------------------------------- slots

  /** `times.filter((_, i) => i !== index)`: drops the slot at `index`; an
      index outside the list drops nothing. */
  function RemoveSlot(times: seq<string>, index: int): (r: seq<string>)
    ensures 0 <= index < |times| ==> |r| == |times| - 1
    ensures 0 <= index < |times| ==> forall i :: 0 <= i < index ==> r[i] == times[i]
    ensures 0 <= index < |times| ==> forall i :: index <= i < |r| ==> r[i] == times[i + 1]
    ensures !(0 <= index < |times|) ==> r == times
  {
    if times == [] then []
    else
      var rest := RemoveSlot(times[1..], index - 1);
      if index == 0 then rest else [times[0]] + rest
  }

  /** `times.map((time, i) => i === index ? value : time)`: the slot at
      `index` takes `value`; an index outside the list changes nothing. */
  function ReplaceSlot(times: seq<string>, index: int, value: string): (r: seq<string>)
    ensures |r| == |times|
    ensures forall i :: 0 <= i < |times| ==> r[i] == if i == index then value else times[i]
  {
    if times == [] then []
    else [if index == 0 then value else times[0]] + ReplaceSlot(times[1..], index - 1, value)
  }

  /** Within the list, dropping a slot by index agrees with cutting it out. */
  lemma {:induction false} RemoveSlotCutsOut(times: seq<string>, index: int)
    requires 0 <= index < |times|
    ensures RemoveSlot(times, index) == Seqs.RemoveAt(times, index)
  {
  }

  /** Removing the slot just added gives back the slots before it. */
  lemma {:induction false} RemoveAddedSlot(times: seq<string>)
    ensures RemoveSlot(times + [""], |times|) == times
  {
  }

  /** Writing a slot's own value back changes nothing, and of two writes
      to one slot the last one stays. */
  lemma {:induction false} ReplaceSlotWrites(times: seq<string>, index: int, v: string, w: string)
    ensures 0 <= index < |times| ==> ReplaceSlot(times, index, times[index]) == times
    ensures ReplaceSlot(ReplaceSlot(times, index, v), index, w) == ReplaceSlot(times, index, w)
  {
  }

  // ---------------------------------------------------------------- submit

  /** `time.trim() !== ""`. */
  function NotBlank(): string -> bool
  {
    (time: string) => Text.Trim(time) != ""
  }

  /** `formData.times.filter((time) => time.trim() !== "")`: the slots with
      something other than white space in them, in their order. */
  function FilledTimes(times: seq<string>): (r: seq<string>)
    ensures forall i :: 0 <= i < |r| ==> !Text.IsBlank(r[i])
    ensures forall i :: 0 <= i < |times| ==> (times[i] in r <==> !Text.IsBlank(times[i]))
    ensures r == [] <==> forall i :: 0 <= i < |times| ==> Text.IsBlank(times[i])
  {
    var r := Seqs.Filter(times, NotBlank());
    assert |r| == Seqs.Count(times, NotBlank());
    r
  }

  /** Every filled time is kept as often as it occurs; no blank one is. */
  lemma {:induction false} FilledTimesCounts(times: seq<string>, t: string)
    ensures multiset(FilledTimes(times))[t] == if Text.IsBlank(t) then 0 else multiset(times)[t]
  {
    Seqs.FilterMultiset(times, NotBlank(), t);
  }

  /** The filled slots are a subsequence of the slots: order is kept. */
  lemma {:induction false} FilledTimesInOrder(times: seq<string>)
    ensures Seqs.IsSubsequence(FilledTimes(times), times)
  {
    Seqs.FilterIsSubsequence(times, NotBlank());
  }

  /** `handleSubmit`: nothing is added unless name, dosage and frequency
      are non-empty and some time slot is filled; otherwise the form is
      added with only its filled slots, an empty end date left out, and
      every other field as typed. */
  function Validate(form: FormData): (r: Option<Store.MedicationDraft>)
    ensures r.Some? <==> (form.name != "" && form.dosage != "" && form.frequency != ""
                          && exists i :: 0 <= i < |form.times| && !Text.IsBlank(form.times[i]))
    ensures r.Some? ==> r.value.times == FilledTimes(form.times)
    ensures r.Some? ==> r.value.times != [] && Seqs.IsSubsequence(r.value.times, form.times)
    ensures r.Some? ==> forall i :: 0 <= i < |form.times| ==> (form.times[i] in r.value.times <==> !Text.IsBlank(form.times[i]))
    ensures r.Some? ==> (r.value.endDate.None? <==> form.endDate == "")
                        && (r.value.endDate.Some? ==> r.value.endDate.value == form.endDate)
    ensures r.Some? ==> r.value.name == form.name && r.value.dosage == form.dosage
                        && r.value.frequency == form.frequency && r.value.startDate == form.startDate
                        && r.value.instructions == Some(form.instructions) && r.value.color == form.color
    ensures r.Some? ==> r.value.category.None? && r.value.sideEffects.None? && r.value.refillDate.None?
  {
    if form.name == "" || form.dosage == "" || form.frequency == "" then None
    else
      var times := FilledTimes(form.times);
      if times == [] then None
      else
        FilledTimesInOrder(form.times);
        Some(Store.MedicationDraft(
          form.name, form.dosage, form.frequency, times, form.startDate,
          if form.endDate == "" then None else Some(form.endDate),
          Some(form.instructions), form.color, None, None, None))
  }

  /** A freshly opened form cannot be submitted. */
  lemma {:induction false} InitialFormRejected(today: string)
    ensures Validate(InitialForm(today)).None?
  {
  }

  /** An empty slot at the end is not among the filled ones. */
  lemma {:induction false} FilledTimesAppendBlank(times: seq<string>)
    ensures FilledTimes(times + [""]) == FilledTimes(times)
  {
    Seqs.FilterConcat(times, [""], NotBlank());
    assert Seqs.Filter([""], NotBlank()) == [] + Seqs.Filter([""][1..], NotBlank());
  }

  /** Adding an empty slot does not change what a submit adds. */
  lemma {:induction false} AddedSlotIgnored(form: FormData)
    ensures Validate(form.(times := form.times + [""])) == Validate(form)
  {
    FilledTimesAppendBlank(form.times);
  }

  /** The dialog's form state. */
  class AddMedicationDialog {
    var form: FormData

    constructor (today: string)
      ensures form == InitialForm(today)
    {
      form := InitialForm(today);
    }

    /** `addTimeSlot`: one more, empty, slot at the end. */
    method AddTimeSlot()
      modifies this
      ensures form == old(form).(times := old(form).times + [""])
    {
      form := form.(times := form.times + [""]);
    }

    /** `removeTimeSlot(index)`. */
    method RemoveTimeSlot(index: int)
      modifies this
      ensures form == old(form).(times := RemoveSlot(old(form).times, index))
    {
      form := form.(times := RemoveSlot(form.times, index));
    }

    /** `updateTimeSlot(index, value)`. */
    method UpdateTimeSlot(index: int, value: string)
      modifies this
      ensures form == old(form).(times := ReplaceSlot(old(form).times, index, value))
    {
      form := form.(times := ReplaceSlot(form.times, index, value));
    }

    /** `handleSubmit`: returns the medication handed to `onAdd`, if any,
        and on success resets the form (`today` is the new start date). */
    method Submit(today: string) returns (added: Option<Store.MedicationDraft>)
      modifies this
      ensures added == Validate(old(form))
      ensures added.Some? ==> form == InitialForm(today)
      ensures added.None? ==> form == old(form)
    {
      added := Validate(form);
      if added.Some? {
        form := InitialForm(today);
      }
    }
  }
}
