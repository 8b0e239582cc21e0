/** The voice reminder (components/voice-reminder.tsx): the minute key of
    the clock, the once-a-minute reminder rule over the medications due at
    that key, the voice-command keyword test and the drag clamp. */
module Reminder {
  import opened Domain
  import Seqs
  import Text
  import Schedule

  // ---------------------------------------------------------------- time key

  /** `${hours.padStart(2, "0")}:${minutes.padStart(2, "0")}`. */
  function TimeKey(hours: nat, minutes: nat): (key: string)
    ensures hours < 100 && minutes < 100 ==> |key| == 5 && key[2] == ':'
  {
    Text.TwoDigits(hours) + ":" + Text.TwoDigits(minutes)
  }

  /** The key reads back, as a schedule slot, as the same minute of the
      day: reminders and the schedule agree on what "HH:MM" means. */
  lemma {:induction false} TimeKeyRoundTrip(hours: nat, minutes: nat)
    requires hours < 24 && minutes < 60
    ensures Schedule.SlotMinutes(TimeKey(hours, minutes)) == Some(hours * 60 + minutes)
  {
    Text.TwoDigitsRoundTrip(hours);
    Text.TwoDigitsRoundTrip(minutes);
    var h, m := Text.TwoDigits(hours), Text.TwoDigits(minutes);
    var key := TimeKey(hours, minutes);
    assert key == [h[0], h[1], ':', m[0], m[1]];
  }

  /** Different minutes of the day have different keys. */
  lemma {:induction false} TimeKeyInjective(h1: nat, m1: nat, h2: nat, m2: nat)
    requires h1 < 24 && m1 < 60 && h2 < 24 && m2 < 60
    ensures TimeKey(h1, m1) == TimeKey(h2, m2) <==> h1 == h2 && m1 == m2
  {
    TimeKeyRoundTrip(h1, m1);
    TimeKeyRoundTrip(h2, m2);
  }

  // ---------------------------------------------------------------- due now

  /** `med.times.includes(key)`. */
  function IsDue(key: string): Medication -> bool
  {
    (med: Medication) => key in med.times
  }

  /** `medications.filter((med) => med.times.includes(currentTime))`. */
  function DueMedications(meds: seq<Medication>, key: string): (r: seq<Medication>)
    ensures forall i :: 0 <= i < |r| ==> key in r[i].times
    ensures forall i :: 0 <= i < |meds| ==> (meds[i] in r <==> key in meds[i].times)
    ensures r == [] <==> forall i :: 0 <= i < |meds| ==> key !in meds[i].times
  {
    var r := Seqs.Filter(meds, IsDue(key));
    assert |r| == Seqs.Count(meds, IsDue(key));
    r
  }

  /** The due medications keep their order in the list. */
  lemma {:induction false} DueInListOrder(meds: seq<Medication>, key: string)
    ensures Seqs.IsSubsequence(DueMedications(meds, key), meds)
  {
    Seqs.FilterIsSubsequence(meds, IsDue(key));
  }

  // ---------------------------------------------------------------- the rule

  /** One run of `checkForScheduledMedications` at minute `key`, given the
      last key a reminder was given for: the medications announced (none
      when nothing is announced) and the new last key. */
  function ReminderStep(last: string, autoRemindersEnabled: bool, voiceEnabled: bool,
                        key: string, meds: seq<Medication>): (r: (seq<Medication>, string))
    ensures !autoRemindersEnabled || !voiceEnabled ==> r == ([], last)
    ensures key == last ==> r == ([], last)
    ensures autoRemindersEnabled && voiceEnabled && key != last ==> r.0 == DueMedications(meds, key)
    ensures r.1 == if r.0 != [] then key else last
  {
    if !autoRemindersEnabled || !voiceEnabled || key == last then ([], last)
    else
      var due := DueMedications(meds, key);
      if due != [] then (due, key) else ([], last)
  }

  /** Once a reminder is given for a minute, no second one is given for
      that minute, whatever the medications are by then. */
  lemma {:induction false} NoRepeatWithinMinute(last: string, a: bool, v: bool, key: string, meds: seq<Medication>, later: seq<Medication>)
    requires ReminderStep(last, a, v, key, meds).0 != []
    ensures ReminderStep(ReminderStep(last, a, v, key, meds).1, a, v, key, later).0 == []
  {
  }

  /** Running the check twice in one minute on the same list announces
      nothing the second time. */
  lemma {:induction false} SecondRunSilent(last: string, a: bool, v: bool, key: string, meds: seq<Medication>)
    ensures ReminderStep(ReminderStep(last, a, v, key, meds).1, a, v, key, meds).0 == []
  {
  }

  /** The component's `lastReminderTime` state. */
  class ReminderState {
    var lastReminderTime: string

    constructor ()
      ensures lastReminderTime == ""
    {
      lastReminderTime := "";
    }

    /** `checkForScheduledMedications` at hours:minutes of the clock:
        returns the medications it announces. */
    method CheckForScheduledMedications(meds: seq<Medication>, autoRemindersEnabled: bool, voiceEnabled: bool,
                                        hours: nat, minutes: nat) returns (due: seq<Medication>)
      modifies this
      ensures (due, lastReminderTime) == ReminderStep(old(lastReminderTime), autoRemindersEnabled, voiceEnabled,
                                                      TimeKey(hours, minutes), meds)
    {
      due := [];
      if !autoRemindersEnabled || !voiceEnabled {
        return;
      }
      var currentTime := TimeKey(hours, minutes);
      if currentTime == lastReminderTime {
        return;
      }
      var current := DueMedications(meds, currentTime);
      if |current| > 0 {
        lastReminderTime := currentTime;
        due := current;
      }
    }
  }

  // ---------------------------------------------------------------- voice

  /** `command.includes("remind me") || command.includes("medication")`
      on the lower-cased transcript. */
  predicate IsReminderCommand(transcript: string)
  {
    var command := Text.ToLower(transcript);
    Text.Contains(command, "remind me") || Text.Contains(command, "medication")
  }

  /** The test ignores capitalisation. */
  lemma {:induction false} ReminderCommandIgnoresCase(transcript: string)
    ensures IsReminderCommand(Text.ToLower(transcript)) == IsReminderCommand(transcript)
  {
    Text.ToLowerIdempotent(transcript);
  }

  /** The `onresult` handler: for a reminder command, the medications due
      at the current minute (an empty list is answered with "no
      medications"); nothing for any other transcript. */
  function VoiceCommand(transcript: string, meds: seq<Medication>, hours: nat, minutes: nat): (r: Option<seq<Medication>>)
    ensures r.Some? <==> IsReminderCommand(transcript)
    ensures r.Some? ==> forall i :: 0 <= i < |meds| ==> (meds[i] in r.value <==> TimeKey(hours, minutes) in meds[i].times)
  {
    if IsReminderCommand(transcript) then Some(DueMedications(meds, TimeKey(hours, minutes))) else None
  }

  // ---------------------------------------------------------------- drag

  /** Card width and approximate height the drag keeps inside the window. */
  const CardWidth: int := 320
  const CardHeight: int := 300

  /** `Math.max(0, Math.min(value, max))`. */
  function Clamp(value: int, max: int): (r: int)
    ensures r >= 0
    ensures max >= 0 ==> r <= max
    ensures max < 0 ==> r == 0
    ensures 0 <= value <= max ==> r == value
    ensures r == value || r == 0 || r == max
  {
    var low := if value < max then value else max;
    if 0 < low then low else 0
  }

  /** Clamping twice clamps once. */
  lemma {:induction false} ClampIdempotent(value: int, max: int)
    ensures Clamp(Clamp(value, max), max) == Clamp(value, max)
  {
  }

  /** `handleMouseMove`: the card's new top-left corner for a pointer at
      (clientX, clientY) grabbed at `offset`, kept inside the window. */
  function DragPosition(clientX: int, clientY: int, offsetX: int, offsetY: int,
                        innerWidth: int, innerHeight: int): (p: (int, int))
    ensures p.0 >= 0 && p.1 >= 0
    ensures innerWidth >= CardWidth ==> p.0 <= innerWidth - CardWidth
    ensures innerHeight >= CardHeight ==> p.1 <= innerHeight - CardHeight
    ensures 0 <= clientX - offsetX <= innerWidth - CardWidth ==> p.0 == clientX - offsetX
    ensures 0 <= clientY - offsetY <= innerHeight - CardHeight ==> p.1 == clientY - offsetY
  {
    (Clamp(clientX - offsetX, innerWidth - CardWidth), Clamp(clientY - offsetY, innerHeight - CardHeight))
  }
}
