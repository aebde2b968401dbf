/** The reminder center: which reminders are active, the rule that decides whether a
    reminder pops up now, the once-a-minute watcher, and the delete-with-undo flow.
    `now` is passed in as a calendar instant in one local zone without daylight
    saving. */
module ReminderCenter {
  import opened Text
  import opened Collections
  import opened Api
  import opened ReminderModel
  import opened UseReminders
  import DeleteUndo

  /** `isSameDay`: same year, month and day of month. */
  predicate SameDay(a: Instant, b: Instant) {
    a.year == b.year && a.month == b.month && a.day == b.day
  }

  /** Milliseconds since local midnight. */
  function MsOfDay(t: Instant): int {
    ((t.hour * 60 + t.minute) * 60 + t.second) * 1000 + t.millisecond
  }

  /** The result of `Number(part)`. */
  datatype JsNumber = NaN | Finite(n: int)

  /** `Number(s)` on the strings the model covers: optional surrounding whitespace
      around decimal digits, the empty string being 0; everything else is NaN. */
  function NumberOf(s: string): (n: JsNumber)
    ensures n.Finite? <==> AllDigits(Trim(s))
    ensures n.Finite? ==> n.n == DigitsValue(Trim(s))
  {
    var t := Trim(s);
    if AllDigits(t) then Finite(DigitsValue(t)) else NaN
  }

  const NotifyWindowMs: int := 30 * 60 * 1000

  /** `lastDoneDate` is set and falls on the same calendar day as `day`. */
  predicate DoneOn(lastDoneDate: Option<Instant>, day: Instant) {
    lastDoneDate.Some? && SameDay(lastDoneDate.value, day)
  }

  /** The target `today at hh:mm:00.000` minus `now`, in milliseconds, for a time of
      day of the stored form "HH:MM". `setHours` carries any overflow of the hours or
      minutes into the next days, which this difference accounts for as well. */
  function MsUntil(timeOfDay: string, now: Instant): int
    requires IsTimeOfDay(timeOfDay)
  {
    (DigitsValue(timeOfDay[..2]) * 60 + DigitsValue(timeOfDay[3..])) * 60000 - MsOfDay(now)
  }

  /** `shouldNotifyReminder(reminder)` evaluated at `now`. When the time has no ":"
      the minutes are `undefined`, `setHours` yields an invalid date, the difference
      is NaN and the window test lets it through. */
  function ShouldNotify(r: Reminder, now: Instant): (fires: bool)
    ensures r.timeOfDay == "" ==> !fires
    ensures var parts := Split(r.timeOfDay, ':');
            NumberOf(parts[0]).NaN? || (|parts| >= 2 && NumberOf(parts[1]).NaN?) ==> !fires
    ensures fires ==> !DoneOn(r.lastDoneDate, now)
  {
    if r.timeOfDay == "" then false
    else
      var parts := Split(r.timeOfDay, ':');
      var hh := NumberOf(parts[0]);
      if hh.NaN? then false
      else if |parts| < 2 then !DoneOn(r.lastDoneDate, now)
      else
        var mm := NumberOf(parts[1]);
        if mm.NaN? then false
        else
          var diff := (hh.n * 60 + mm.n) * 60000 - MsOfDay(now);
          if diff < 0 || diff > NotifyWindowMs then false
          else !DoneOn(r.lastDoneDate, now)
  }

  /** A stored time "HH:MM" splits into its hours and its minutes. */
  lemma {:induction false} SplitTimeOfDay(s: string)
    requires IsTimeOfDay(s)
    ensures Split(s, ':') == [s[..2], s[3..]]
  {
    SplitWithoutSeparator(s[3..], ':');
    assert s[2..][1..] == s[3..];
    assert Split(s[2..], ':') == ["", s[3..]];
    assert s[1..][1..] == s[2..];
    assert s[1..][0] == s[1] && s[1] != ':';
    assert [s[1]] + "" == [s[1]];
    assert Split(s[1..], ':') == [[s[1]], s[3..]];
    assert s[..2] == [s[0]] + [s[1]];
  }

  /** For a stored time the rule is exactly: the target lies 0 to 30 minutes ahead
      and the reminder was not done today. A target already passed never fires. */
  lemma {:induction false} ShouldNotifyWindow(r: Reminder, now: Instant)
    requires IsTimeOfDay(r.timeOfDay)
    ensures ShouldNotify(r, now) <==>
              0 <= MsUntil(r.timeOfDay, now) <= NotifyWindowMs && !DoneOn(r.lastDoneDate, now)
  {
    var s := r.timeOfDay;
    SplitTimeOfDay(s);
    TrimOfTrimmed(s[..2]);
    TrimOfTrimmed(s[3..]);
  }

  /** Whether a reminder fires depends on neither its `repeat` mode, nor its task,
      nor whether it is active. */
  lemma RepeatIgnored(r: Reminder, now: Instant, repeat: string, task: string, active: bool)
    ensures ShouldNotify(r.(repeat := repeat, task := task, isActive := active), now) == ShouldNotify(r, now)
  {
  }

  /** A reminder done earlier today stays silent all day; one done on another day
      fires again in its window. */
  lemma {:induction false} DoneTodaySilences(r: Reminder, now: Instant, done: Instant)
    requires IsTimeOfDay(r.timeOfDay) && 0 <= MsUntil(r.timeOfDay, now) <= NotifyWindowMs
    ensures ShouldNotify(r.(lastDoneDate := Some(done)), now) <==> !SameDay(done, now)
  {
    ShouldNotifyWindow(r.(lastDoneDate := Some(done)), now);
  }

  /** A time without ":" whose hours parse passes the window test at any time of day. */
  lemma {:induction false} NoColonIgnoresWindow(r: Reminder, now: Instant)
    requires r.timeOfDay != [] && AllDigits(r.timeOfDay)
    ensures ShouldNotify(r, now) <==> !DoneOn(r.lastDoneDate, now)
  {
    SplitWithoutSeparator(r.timeOfDay, ':');
    TrimOfTrimmed(r.timeOfDay);
  }

  /** `activeReminders`: not switched off and not hidden, in list order. */
  function ActiveReminders(reminders: seq<Reminder>, hidden: seq<string>): (active: seq<Reminder>)
    ensures forall r :: r in active <==> r in reminders && r.isActive && r.id !in hidden
    ensures Subseq(active, reminders)
  {
    FilterIsSubseq(reminders, (r: Reminder) => r.isActive && r.id !in hidden);
    Filter(reminders, (r: Reminder) => r.isActive && r.id !in hidden)
  }

  /** `todaysReminders`: each active reminder with its `doneToday` flag. */
  function TodaysReminders(active: seq<Reminder>, today: Instant): (rows: seq<(Reminder, bool)>)
    ensures |rows| == |active|
    ensures forall i :: 0 <= i < |active| ==> rows[i].0 == active[i] && (rows[i].1 <==> DoneOn(active[i].lastDoneDate, today))
  {
    Map(active, (r: Reminder) => (r, DoneOn(r.lastDoneDate, today)))
  }

  function Id(r: Reminder): string {
    r.id
  }

  function ToastMessage(r: Reminder): string {
    "Reminder: " + r.task
  }

  /** A reminder not yet notified this session that should fire now. */
  function DueAt(notified: seq<string>, now: Instant): Reminder -> bool {
    (r: Reminder) => r.id !in notified && ShouldNotify(r, now)
  }

  /** The reminders one run of the watcher's `check` surfaces, in list order. */
  function Due(active: seq<Reminder>, notified: seq<string>, now: Instant): (due: seq<Reminder>)
    ensures forall r :: r in due <==> r in active && DueAt(notified, now)(r)
  {
    Filter(active, DueAt(notified, now))
  }

  /** After a check appends the surfaced ids, no later check, at any time and over any
      list, surfaces any of them again: each reminder pops up at most once a session. */
  lemma {:induction false} NotifiedAtMostOnce(active: seq<Reminder>, notified: seq<string>, now: Instant,
                                              later: seq<Reminder>, nowLater: Instant)
    ensures var first := Due(active, notified, now);
            var second := Due(later, notified + Map(first, Id), nowLater);
            forall r1, r2 :: r1 in first && r2 in second ==> r1.id != r2.id
  {
    var first := Due(active, notified, now);
    var ids := Map(first, Id);
    forall r1 | r1 in first ensures r1.id in notified + ids {
      var i :| 0 <= i < |first| && first[i] == r1;
      assert ids[i] == r1.id;
    }
  }

  lemma DueStep(active: seq<Reminder>, notified: seq<string>, now: Instant, i: nat)
    requires i < |active|
    ensures Due(active[..i + 1], notified, now)
            == Due(active[..i], notified, now) + (if DueAt(notified, now)(active[i]) then [active[i]] else [])
  {
    TakeOneMore(active, i);
    FilterAppend(active[..i], [active[i]], DueAt(notified, now));
  }

  /** Surfacing one more reminder appends its id and its toast and makes it the last. */
  lemma Surfaced(notified: seq<string>, due: seq<Reminder>, r: Reminder, d: Option<Reminder>)
    ensures notified + Map(due + [r], Id) == notified + Map(due, Id) + [Id(r)]
    ensures Map(due + [r], ToastMessage) == Map(due, ToastMessage) + [ToastMessage(r)]
    ensures LastOr(due + [r], d) == Some(r)
  {
    MapSnoc(due, r, Id);
    MapSnoc(due, r, ToastMessage);
    AppendAssoc(notified, Map(due, Id), [Id(r)]);
  }

  /** The last element, or `d` for the empty list. */
  function LastOr<T>(s: seq<T>, d: Option<T>): Option<T> {
    if s == [] then d else Some(s[|s| - 1])
  }

  /** The loop of `check` over the active reminders: a reminder whose id is not in the
      `notified` the check started with and that should fire now is surfaced. The
      updates to the notified ids and to the popup are batched and applied together
      afterwards, as React applies state updates made in one callback. */
  method Surface(active: seq<Reminder>, notified: seq<string>, before: Option<Reminder>, now: Instant)
    returns (ids: seq<string>, toasts: seq<string>, last: Option<Reminder>)
    ensures var due := Due(active, notified, now);
            ids == notified + Map(due, Id) && toasts == Map(due, ToastMessage) && last == LastOr(due, before)
  {
    ghost var due: seq<Reminder> := [];
    ids, toasts, last := notified, [], before;
    var i := 0;
    while i < |active|
      invariant 0 <= i <= |active|
      invariant due == Due(active[..i], notified, now)
      invariant ids == notified + Map(due, Id) && toasts == Map(due, ToastMessage)
      invariant last == LastOr(due, before)
    {
      var r := active[i];
      DueStep(active, notified, now, i);
      if r.id !in notified && ShouldNotify(r, now) {
        Surfaced(notified, due, r, before);
        last := Some(r);
        ids := ids + [Id(r)];
        toasts := toasts + [ToastMessage(r)];
        due := due + [r];
      }
      i := i + 1;
    }
    TakeAll(active);
  }

  class Center {
    const hook: RemindersHook
    var alreadyNotifiedIds: seq<string>
    var activeReminder: Option<Reminder>
    var hiddenReminderIds: seq<string>
    var pendingDeleteReminder: Option<Reminder>
    var deleteUndoTimer: Option<nat>
    /** The armed timers: handle to the id of the reminder its callback deletes. */
    var timers: map<nat, string>
    var nextHandle: nat
    /** The backend deletes the timer callbacks have requested. */
    ghost var deleteCalls: seq<string>
    /** The ids whose backend delete succeeded. */
    ghost var removed: seq<string>
    var deleteModalOpen: bool
    var reminderToDelete: Option<Reminder>

    constructor (hook: RemindersHook)
      ensures this.hook == hook && alreadyNotifiedIds == [] && activeReminder.None?
      ensures UndoState() == DeleteUndo.Initial && !deleteModalOpen && reminderToDelete.None?
    {
      this.hook := hook;
      alreadyNotifiedIds := [];
      activeReminder := None;
      hiddenReminderIds := [];
      pendingDeleteReminder := None;
      deleteUndoTimer := None;
      timers := map[];
      nextHandle := 1;
      deleteCalls := [];
      removed := [];
      deleteModalOpen := false;
      reminderToDelete := None;
    }

    /** The delete-with-undo state of the center. */
    ghost function UndoState(): DeleteUndo.State
      reads this`hiddenReminderIds, this`pendingDeleteReminder, this`deleteUndoTimer, this`timers, this`nextHandle,
            this`deleteCalls, this`removed
    {
      DeleteUndo.State(hiddenReminderIds, if pendingDeleteReminder.Some? then Some(pendingDeleteReminder.value.id) else None,
                       deleteUndoTimer, timers, nextHandle, deleteCalls, removed)
    }

    function Active(): seq<Reminder>
      reads this, hook
    {
      ActiveReminders(hook.reminders, hiddenReminderIds)
    }

    /** One run of the watcher's `check`: every active reminder not yet notified that
        should fire now is surfaced, its id appended, a toast raised; the popup shows
        the last one surfaced. */
    method Check(now: Instant) returns (toasts: seq<string>)
      modifies this`alreadyNotifiedIds, this`activeReminder
      ensures var due := Due(Active(), old(alreadyNotifiedIds), now);
              alreadyNotifiedIds == old(alreadyNotifiedIds) + Map(due, Id)
              && toasts == Map(due, ToastMessage)
              && activeReminder == LastOr(due, old(activeReminder))
    {
      var active := ActiveReminders(hook.reminders, hiddenReminderIds);
      var notified, last;
      notified, toasts, last := Surface(active, alreadyNotifiedIds, activeReminder, now);
      alreadyNotifiedIds, activeReminder := notified, last;
    }

    /** `handleMarkDoneToday(id, fromPopup)`: the hook's write; only when it succeeds
        and the call came from the popup is the popup closed. */
    method HandleMarkDoneToday(id: string, fromPopup: bool, res: Fetched<Reminder>) returns (outcome: Outcome<Option<Reminder>>)
      modifies hook`reminders, this`activeReminder
      ensures !Accepted(res) ==> outcome == Thrown(Rejection(res, "Failed to mark reminder done"))
                                 && hook.reminders == old(hook.reminders)
      ensures Accepted(res) ==> outcome == Done(res.reply.body.data)
      ensures Accepted(res) && res.reply.body.data.Some? ==>
                hook.reminders == ReplaceWhere(old(hook.reminders), (r: Reminder) => r.id == id, res.reply.body.data.value)
      ensures Accepted(res) && res.reply.body.data.None? ==> hook.reminders == old(hook.reminders)
      ensures Accepted(res) && fromPopup ==> activeReminder.None?
      ensures activeReminder == (if outcome.Done? && fromPopup then None else old(activeReminder))
    {
      outcome := hook.MarkDoneToday(id, res);
      if outcome.Done? && fromPopup {
        activeReminder := None;
      }
    }

    /** `openDeleteModalForReminder(rem)` */
    method OpenDeleteModal(rem: Reminder)
      modifies this`reminderToDelete, this`deleteModalOpen
      ensures reminderToDelete == Some(rem) && deleteModalOpen
    {
      reminderToDelete := Some(rem);
      deleteModalOpen := true;
    }

    /** `closeDeleteModal()` */
    method CloseDeleteModal()
      modifies this`reminderToDelete, this`deleteModalOpen
      ensures reminderToDelete.None? && !deleteModalOpen
    {
      deleteModalOpen := false;
      reminderToDelete := None;
    }

    /** `handleConfirmDeleteReminder()`: nothing without a reminder chosen; otherwise
        close the dialog and take the confirm step of the flow as written. */
    method ConfirmDelete()
      modifies this
      ensures old(reminderToDelete).None? ==> UndoState() == old(UndoState()) && pendingDeleteReminder == old(pendingDeleteReminder)
                                              && deleteModalOpen == old(deleteModalOpen) && reminderToDelete.None?
      ensures old(reminderToDelete).Some? ==>
                UndoState() == DeleteUndo.Confirm(old(UndoState()), old(reminderToDelete).value.id)
                && pendingDeleteReminder == old(reminderToDelete) && !deleteModalOpen && reminderToDelete.None?
      ensures alreadyNotifiedIds == old(alreadyNotifiedIds) && activeReminder == old(activeReminder)
    {
      if reminderToDelete.None? {
        return;
      }
      var rem := reminderToDelete.value;
      CloseDeleteModal();
      Arm(rem);
    }

    /** The confirm step: hide the reminder, cancel the remembered timer and arm a new one. */
    method Arm(rem: Reminder)
      modifies this`hiddenReminderIds, this`pendingDeleteReminder, this`deleteUndoTimer, this`timers, this`nextHandle
      ensures UndoState() == DeleteUndo.Confirm(old(UndoState()), rem.id) && pendingDeleteReminder == Some(rem)
    {
      hiddenReminderIds := hiddenReminderIds + [rem.id];
      pendingDeleteReminder := Some(rem);
      timers := if deleteUndoTimer.Some? then timers - {deleteUndoTimer.value} else timers;
      timers := timers[nextHandle := rem.id];
      deleteUndoTimer := Some(nextHandle);
      nextHandle := nextHandle + 1;
    }

    /** The callback of timer `h` runs with the backend's reply `res`: the hook's
        delete, then the fire step of the flow as written; the toast text is returned. */
    method TimerFires(h: nat, res: Fetched<Reminder>) returns (toast: string)
      requires h in timers
      modifies this, hook`reminders
      ensures UndoState() == DeleteUndo.Fire(old(UndoState()), h, Accepted(res))
      ensures var id := old(timers)[h];
              Accepted(res) ==> hook.reminders == Filter(old(hook.reminders), (r: Reminder) => r.id != id)
                                && toast == "Reminder deleted."
      ensures !Accepted(res) ==> hook.reminders == old(hook.reminders)
                                 && toast == OrElse(Some(Rejection(res, "Failed to delete reminder")), "Failed to delete reminder")
      ensures alreadyNotifiedIds == old(alreadyNotifiedIds) && activeReminder == old(activeReminder)
      ensures deleteModalOpen == old(deleteModalOpen) && reminderToDelete == old(reminderToDelete)
    {
      var outcome := hook.DeleteReminder(timers[h], res);
      toast := if outcome.Done? then "Reminder deleted." else OrElse(Some(outcome.message), "Failed to delete reminder");
      Disarm(h, outcome.Done?);
    }

    /** The fire step: record the delete, unhide the reminder unless it was deleted,
        and clear the pending slot. */
    method Disarm(h: nat, deleted: bool)
      requires h in timers
      modifies this`hiddenReminderIds, this`pendingDeleteReminder, this`deleteUndoTimer, this`timers, this`deleteCalls, this`removed
      ensures UndoState() == DeleteUndo.Fire(old(UndoState()), h, deleted)
    {
      var id := timers[h];
      deleteCalls := deleteCalls + [id];
      if deleted {
        removed := removed + [id];
      } else {
        hiddenReminderIds := DeleteUndo.Unhide(hiddenReminderIds, id);
      }
      pendingDeleteReminder := None;
      deleteUndoTimer := None;
      timers := timers - {h};
    }

    /** `handleUndoDeleteReminder()` */
    method UndoDelete()
      modifies this
      ensures UndoState() == DeleteUndo.Undo(old(UndoState()))
      ensures alreadyNotifiedIds == old(alreadyNotifiedIds) && activeReminder == old(activeReminder)
      ensures deleteModalOpen == old(deleteModalOpen) && reminderToDelete == old(reminderToDelete)
    {
      if pendingDeleteReminder.None? {
        return;
      }
      timers := if deleteUndoTimer.Some? then timers - {deleteUndoTimer.value} else timers;
      hiddenReminderIds := DeleteUndo.Unhide(hiddenReminderIds, pendingDeleteReminder.value.id);
      pendingDeleteReminder := None;
      deleteUndoTimer := None;
    }
  }
}
