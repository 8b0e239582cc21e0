/** Today's schedule (components/today-schedule.tsx): one item per
    (medication, reminder time) pair, marked taken from today's log and
    overdue against the clock, sorted by time; and the logging dialog that
    marks an item as taken. "Now" is given as milliseconds since local
    midnight and "today" as the date string the log uses. */
module Schedule {
  import opened Domain
  import Seqs
  import Text
  import Sorting
  import Store

  /** A dose slot: one reminder time of one medication. */
  datatype Slot = Slot(medication: Medication, time: string)

  datatype ScheduleItem = ScheduleItem(medication: Medication, time: string, taken: bool, overdue: bool)

  function SlotsOf(m: Medication): Slot -> bool
  {
    (s: Slot) => s.medication == m
  }

  function TimesToSlots(m: Medication, times: seq<string>): (r: seq<Slot>)
    ensures |r| == |times|
    ensures forall i :: 0 <= i < |r| ==> r[i] == Slot(m, times[i])
  {
    if times == [] then [] else [Slot(m, times[0])] + TimesToSlots(m, times[1..])
  }

  /** `medications.flatMap(m => m.times.map(time => ...))`: the slots,
      medication by medication, each medication's times in order,
      repeated times kept. */
  function Slots(meds: seq<Medication>): (r: seq<Slot>)
    ensures |r| == SlotCount(meds)
  {
    if meds == [] then [] else TimesToSlots(meds[0], meds[0].times) + Slots(meds[1..])
  }

  /** Every reminder time of every medication is a slot, and every slot is one. */
  lemma {:induction false} SlotsComplete(meds: seq<Medication>)
    ensures forall i, t :: 0 <= i < |meds| && t in meds[i].times ==> Slot(meds[i], t) in Slots(meds)
    ensures forall k :: 0 <= k < |Slots(meds)| ==>
              Slots(meds)[k].medication in meds && Slots(meds)[k].time in Slots(meds)[k].medication.times
  {
    SlotsCoverTimes(meds);
    SlotsFromTimes(meds);
  }

  lemma {:induction false} SlotsCoverTimes(meds: seq<Medication>)
    ensures forall i, t :: 0 <= i < |meds| && t in meds[i].times ==> Slot(meds[i], t) in Slots(meds)
  {
    if meds != [] {
      SlotsCoverTimes(meds[1..]);
      var head, tail := TimesToSlots(meds[0], meds[0].times), Slots(meds[1..]);
      assert Slots(meds) == head + tail;
      forall i, t | 0 <= i < |meds| && t in meds[i].times ensures Slot(meds[i], t) in head + tail {
        if i == 0 {
          var j :| 0 <= j < |meds[0].times| && meds[0].times[j] == t;
          assert head[j] == Slot(meds[0], t);
        } else {
          assert meds[i] == meds[1..][i - 1];
          assert Slot(meds[i], t) in tail;
        }
      }
    }
  }

  lemma {:induction false} SlotsFromTimes(meds: seq<Medication>)
    ensures forall k :: 0 <= k < |Slots(meds)| ==>
              Slots(meds)[k].medication in meds && Slots(meds)[k].time in Slots(meds)[k].medication.times
  {
    if meds != [] {
      SlotsFromTimes(meds[1..]);
      var head, tail := TimesToSlots(meds[0], meds[0].times), Slots(meds[1..]);
      var all := Slots(meds);
      assert all == head + tail;
      forall k | 0 <= k < |all|
        ensures all[k].medication in meds && all[k].time in all[k].medication.times
      {
        if k >= |head| {
          assert all[k] == tail[k - |head|];
          assert tail[k - |head|].medication in meds[1..];
        } else {
          assert all[k] == head[k];
        }
      }
    }
  }

  // ---------------------------------------------------------------- one item

  /** `time.split(":").map(Number)` followed by `setHours(hours, minutes)`,
      for a "HH:MM" string: the slot's offset from midnight in minutes.
      Anything else gives no time, and an invalid date is never overdue. */
  function SlotMinutes(time: string): (r: Option<int>)
    ensures r.Some? ==> 0 <= r.value <= 99 * 60 + 99
    ensures r.Some? <==> (|time| == 5 && time[2] == ':' && Text.DigitValue(time[0]) >= 0 && Text.DigitValue(time[1]) >= 0
                          && Text.DigitValue(time[3]) >= 0 && Text.DigitValue(time[4]) >= 0)
  {
    if |time| == 5 && time[2] == ':'
       && Text.DigitValue(time[0]) >= 0 && Text.DigitValue(time[1]) >= 0
       && Text.DigitValue(time[3]) >= 0 && Text.DigitValue(time[4]) >= 0
    then
      var hours := 10 * Text.DigitValue(time[0]) + Text.DigitValue(time[1]);
      var minutes := 10 * Text.DigitValue(time[3]) + Text.DigitValue(time[4]);
      Some(hours * 60 + minutes)
    else None
  }

  const MillisPerMinute: int := 60000

  /** The item for one slot: `taken` from the first log entry for
      (medication, today, time), `overdue` when now is strictly after the
      slot and the dose is not taken. */
  function MakeItem(slot: Slot, logs: seq<MedicationLog>, today: string, now: int): (item: ScheduleItem)
    ensures item.medication == slot.medication && item.time == slot.time
    ensures var found := Store.FindByKey(logs, slot.medication.id, today, slot.time);
            item.taken <==> found.Some? && found.value.taken
    ensures item.overdue <==> (!item.taken && SlotMinutes(slot.time).Some?
                               && now > SlotMinutes(slot.time).value * MillisPerMinute)
    ensures item.overdue ==> !item.taken
  {
    var log := Store.FindByKey(logs, slot.medication.id, today, slot.time);
    var taken := if log.Some? then log.value.taken else false;
    var due := SlotMinutes(slot.time);
    var overdue := due.Some? && now > due.value * MillisPerMinute && !(log.Some? && log.value.taken);
    ScheduleItem(slot.medication, slot.time, taken, overdue)
  }

  function ItemFor(logs: seq<MedicationLog>, today: string, now: int): Slot -> ScheduleItem
  {
    (slot: Slot) => MakeItem(slot, logs, today, now)
  }

  // ---------------------------------------------------------------- order

  /** `(a, b) => a.time.localeCompare(b.time) <= 0` on "HH:MM" strings. */
  function ByTime(): (ScheduleItem, ScheduleItem) -> bool
  {
    (a: ScheduleItem, b: ScheduleItem) => Text.LexLeq(a.time, b.time)
  }

  lemma {:induction false} ByTimeIsTotalPreorder()
    ensures Sorting.TotalPreorder(ByTime())
  {
    forall a: ScheduleItem, b: ScheduleItem ensures ByTime()(a, b) || ByTime()(b, a) {
      Text.LexTotal(a.time, b.time);
    }
    forall a: ScheduleItem, b: ScheduleItem, c: ScheduleItem | ByTime()(a, b) && ByTime()(b, c)
      ensures ByTime()(a, c)
    {
      Text.LexTransitive(a.time, b.time, c.time);
    }
  }

  /** The items in slot order, before sorting. */
  function Unsorted(meds: seq<Medication>, logs: seq<MedicationLog>, today: string, now: int): seq<ScheduleItem>
  {
    Seqs.Map(Slots(meds), ItemFor(logs, today, now))
  }

  /** `todaySchedule`: the items sorted by time, ties in slot order. */
  function TodaySchedule(meds: seq<Medication>, logs: seq<MedicationLog>, today: string, now: int): seq<ScheduleItem>
  {
    Sorting.Sort(Unsorted(meds, logs, today, now), ByTime())
  }

  function SlotOfItem(item: ScheduleItem): Slot
  {
    Slot(item.medication, item.time)
  }

  /** The schedule has one item per slot (repeated times included), sorted
      by time, and items with the same time keep the slot order. */
  lemma {:induction false} ScheduleShape(meds: seq<Medication>, logs: seq<MedicationLog>, today: string, now: int)
    ensures |TodaySchedule(meds, logs, today, now)| == SlotCount(meds)
    ensures multiset(Seqs.Map(TodaySchedule(meds, logs, today, now), SlotOfItem)) == multiset(Slots(meds))
    ensures Sorting.Sorted(TodaySchedule(meds, logs, today, now), ByTime())
    ensures forall z :: Sorting.Ties(TodaySchedule(meds, logs, today, now), z, ByTime())
                        == Sorting.Ties(Unsorted(meds, logs, today, now), z, ByTime())
  {
    var items := Unsorted(meds, logs, today, now);
    ByTimeIsTotalPreorder();
    Sorting.SortSorted(items, ByTime());
    forall z ensures Sorting.Ties(TodaySchedule(meds, logs, today, now), z, ByTime()) == Sorting.Ties(items, z, ByTime()) {
      Sorting.SortStable(items, z, ByTime());
    }
    Seqs.MapPermutation(TodaySchedule(meds, logs, today, now), items, SlotOfItem);
    assert Seqs.Map(items, SlotOfItem) == Slots(meds);
  }

  /** Every item of the schedule is the item of one of the slots. */
  lemma {:induction false} ItemOfSomeSlot(meds: seq<Medication>, logs: seq<MedicationLog>, today: string, now: int, i: nat)
    requires i < |TodaySchedule(meds, logs, today, now)|
    ensures exists k :: 0 <= k < |Slots(meds)| && TodaySchedule(meds, logs, today, now)[i] == MakeItem(Slots(meds)[k], logs, today, now)
  {
    var slots := Slots(meds);
    var items := Seqs.Map(slots, ItemFor(logs, today, now));
    var sched := Sorting.Sort(items, ByTime());
    assert sched[i] in multiset(sched);
    assert sched[i] in multiset(items);
    var k :| 0 <= k < |items| && items[k] == sched[i];
    assert items[k] == MakeItem(slots[k], logs, today, now);
  }

  /** An item's state follows the log and the clock: taken exactly when the
      first entry for its key is taken, overdue only when not taken. */
  lemma {:induction false} ScheduleItemState(meds: seq<Medication>, logs: seq<MedicationLog>, today: string, now: int, i: nat)
    requires i < |TodaySchedule(meds, logs, today, now)|
    ensures var item := TodaySchedule(meds, logs, today, now)[i];
            var found := Store.FindByKey(logs, item.medication.id, today, item.time);
            && (item.taken <==> found.Some? && found.value.taken)
            && (item.overdue <==> (!item.taken && SlotMinutes(item.time).Some?
                                   && now > SlotMinutes(item.time).value * MillisPerMinute))
            && item.medication in meds && item.time in item.medication.times
  {
    ItemOfSomeSlot(meds, logs, today, now, i);
    SlotsComplete(meds);
    var sched := TodaySchedule(meds, logs, today, now);
    var k :| 0 <= k < |Slots(meds)| && sched[i] == MakeItem(Slots(meds)[k], logs, today, now);
  }

  /** The schedule of one medication taken at 08:00 and 20:00 with an
      empty log, looked at exactly at 08:00: two items, in time order,
      neither taken nor overdue; today's statistics read 0 of 2. */
  lemma {:induction false} AspirinAtEight(today: string)
    ensures var aspirin := Medication("1", "Aspirin", "100mg", "Twice daily", ["08:00", "20:00"], "2024-01-01",
                                      None, None, "#3B82F6", None, None, None);
            var sched := TodaySchedule([aspirin], [], today, 8 * 60 * MillisPerMinute);
            && |sched| == 2
            && sched[0] == ScheduleItem(aspirin, "08:00", false, false)
            && sched[1] == ScheduleItem(aspirin, "20:00", false, false)
            && Store.TodayStats([aspirin], [], today) == Store.TodayStatsResult(0, 2, 0.0)
  {
    var aspirin := Medication("1", "Aspirin", "100mg", "Twice daily", ["08:00", "20:00"], "2024-01-01",
                              None, None, "#3B82F6", None, None, None);
    var a := MakeItem(Slot(aspirin, "08:00"), [], today, 8 * 60 * MillisPerMinute);
    var b := MakeItem(Slot(aspirin, "20:00"), [], today, 8 * 60 * MillisPerMinute);
    assert Slots([aspirin]) == [Slot(aspirin, "08:00"), Slot(aspirin, "20:00")];
    assert Unsorted([aspirin], [], today, 8 * 60 * MillisPerMinute) == [a, b];
    assert SlotMinutes("08:00") == Some(480);
    assert SlotMinutes("20:00") == Some(1200);
    assert a == ScheduleItem(aspirin, "08:00", false, false);
    assert b == ScheduleItem(aspirin, "20:00", false, false);
    assert Text.LexLeq("08:00", "20:00");
    assert Sorting.Insert(b, [], ByTime()) == [b];
    assert Sorting.Sort([b], ByTime()) == [b];
    assert Sorting.Sort([a, b], ByTime()) == Sorting.Insert(a, [b], ByTime()) == [a, b];
    assert SlotCount([aspirin]) == 2;
  }

  // ---------------------------------------------------------------- logging dialog

  /** The dialog's state: the selected item, the chosen mood and the ticked
      side effects. */
  datatype LogDialog = LogDialog(selected: Option<ScheduleItem>, mood: int, sideEffects: seq<string>)

  /** The arguments of one `onMarkAsTaken` call. */
  datatype MarkRequest = MarkRequest(medicationId: string, date: string, time: string,
                                     mood: Option<int>, sideEffects: Option<seq<string>>)

  datatype Confirmation = Confirmation(request: Option<MarkRequest>, dialog: LogDialog)

  /** The dialog after a confirmation: nothing selected, mood "Good", no side effects. */
  const ClosedDialog: LogDialog := LogDialog(None, 3, [])

  /** `confirmTaken`: with an item selected, request a mark for that item's
      medication and time today with the chosen mood and side effects, and
      reset the dialog; with nothing selected, do nothing. */
  function ConfirmTaken(d: LogDialog, today: string): (c: Confirmation)
    ensures d.selected.None? ==> c.request.None? && c.dialog == d
    ensures d.selected.Some? ==> c.dialog == ClosedDialog && c.request.Some?
    ensures c.request.Some? ==>
      c.request.value.medicationId == d.selected.value.medication.id
      && c.request.value.date == today && c.request.value.time == d.selected.value.time
      && c.request.value.mood == Some(d.mood) && c.request.value.sideEffects == Some(d.sideEffects)
  {
    match d.selected
    case None => Confirmation(None, d)
    case Some(item) =>
      Confirmation(Some(MarkRequest(item.medication.id, today, item.time, Some(d.mood), Some(d.sideEffects))),
                   ClosedDialog)
  }

  /** Once a confirmed request is applied to the log, every schedule item
      for that medication and time shows as taken and not overdue. */
  lemma {:induction false} ConfirmedDoseIsTaken(meds: seq<Medication>, logs: seq<MedicationLog>, d: LogDialog,
                             today: string, now: int, stamp: string)
    requires d.selected.Some?
    ensures var req := ConfirmTaken(d, today).request.value;
            var logs' := Store.MarkTaken(logs, req.medicationId, req.date, req.time, req.mood, req.sideEffects, stamp);
            var sched := TodaySchedule(meds, logs', today, now);
            forall i :: 0 <= i < |sched| && sched[i].medication.id == req.medicationId && sched[i].time == req.time ==>
              sched[i].taken && !sched[i].overdue
  {
    var req := ConfirmTaken(d, today).request.value;
    var logs' := Store.MarkTaken(logs, req.medicationId, req.date, req.time, req.mood, req.sideEffects, stamp);
    Store.MarkTakenFinds(logs, req.medicationId, req.date, req.time, req.mood, req.sideEffects, stamp);
    var sched := TodaySchedule(meds, logs', today, now);
    forall i | 0 <= i < |sched| && sched[i].medication.id == req.medicationId && sched[i].time == req.time
      ensures sched[i].taken && !sched[i].overdue
    {
      ScheduleItemState(meds, logs', today, now, i);
    }
  }

  function Differs(effect: string): string -> bool
  {
    (e: string) => e != effect
  }

  /** The side-effect checkbox: ticking appends the effect, unticking
      removes every copy of it and keeps the rest in order. */
  function ToggleSideEffect(effects: seq<string>, effect: string, checked: bool): (r: seq<string>)
    ensures checked ==> r == effects + [effect] && multiset(r) == multiset(effects) + multiset{effect}
    ensures !checked ==> effect !in r && |r| <= |effects|
  {
    if checked then effects + [effect] else Seqs.Filter(effects, Differs(effect))
  }

  /** Unticking keeps every other effect, as often as it was ticked. */
  lemma {:induction false} UntickKeepsOthers(effects: seq<string>, effect: string, other: string)
    requires other != effect
    ensures multiset(ToggleSideEffect(effects, effect, false))[other] == multiset(effects)[other]
    ensures Seqs.IsSubsequence(ToggleSideEffect(effects, effect, false), effects)
  {
    Seqs.FilterMultiset(effects, Differs(effect), other);
    Seqs.FilterIsSubsequence(effects, Differs(effect));
  }
}
