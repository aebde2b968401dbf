/** The add/edit reminder dialog: its prefill on open, validation, the payload handed
    to `onSave`, and the close guard while a save is in flight. The outcome of
    `onSave` is a parameter. */
module ReminderModal {
  import opened Text
  import opened Collections
  import opened Api
  import opened ReminderModel
  import RemindersController

  datatype ReminderForm = ReminderForm(task: string, timeOfDay: string, repeat: string)

  const NewForm := ReminderForm("", "", "daily")

  datatype FormErrors = FormErrors(task: Option<string>, timeOfDay: Option<string>, submit: Option<string>)

  const NoErrors := FormErrors(None, None, None)

  /** `validate`: a blank task, a blank time, or a time that is not `^\d{2}:\d{2}$`
      as typed (surrounding spaces fail the pattern even though the payload trims). */
  function Validate(form: ReminderForm): (e: FormErrors)
    ensures e.submit.None?
    ensures Blank(form.task) <==> e.task == Some("Task is required")
    ensures !Blank(form.task) <==> e.task.None?
    ensures Blank(form.timeOfDay) ==> e.timeOfDay == Some("Time is required")
    ensures !Blank(form.timeOfDay) && !IsTimeOfDay(form.timeOfDay) ==> e.timeOfDay == Some("Time must be in HH:MM format")
    ensures e.timeOfDay.None? <==> IsTimeOfDay(form.timeOfDay)
  {
    TrimEmptyIffBlank(form.task);
    TrimEmptyIffBlank(form.timeOfDay);
    BlankIsNoTime(form.timeOfDay);
    FormErrors(
      if Trim(form.task) == "" then Some("Task is required") else None,
      if Trim(form.timeOfDay) == "" then Some("Time is required")
      else if !IsTimeOfDay(form.timeOfDay) then Some("Time must be in HH:MM format")
      else None,
      None)
  }

  lemma BlankIsNoTime(s: string)
    ensures Blank(s) ==> !IsTimeOfDay(s)
  {
    if |s| == 5 {
      assert !IsSpace(s[0]) || !IsDigit(s[0]);
    }
  }

  /** What `onSave` receives: task and time trimmed, repeat as chosen. */
  datatype ReminderPayload = ReminderPayload(task: string, timeOfDay: string, repeat: string)

  /** The dialog and the server agree: a form that passes `validate` sends a task
      and time the server's checks accept unchanged. */
  lemma ValidFormIsAccepted(form: ReminderForm)
    requires Validate(form) == NoErrors
    ensures var p := ReminderPayload(Trim(form.task), Trim(form.timeOfDay), form.repeat);
            RemindersController.CheckEntry(Str(p.task), Str(p.timeOfDay)) == RemindersController.Pass((p.task, p.timeOfDay))
  {
    TimeOfDayIsTrimmed(form.timeOfDay);
    TrimIdempotent(form.task);
    TrimEmptyIffBlank(form.task);
    TrimEmptyIffBlank(Trim(form.task));
  }

  class ReminderDialog {
    var form: ReminderForm
    var errors: FormErrors
    var loading: bool

    /** The initial `useState` values. */
    constructor ()
      ensures form == NewForm && errors == NoErrors && !loading
    {
      form, errors, loading := NewForm, NoErrors, false;
    }

    /** The open effect: in edit mode with a reminder its task, time and repeat (repeat
        "daily" when empty), otherwise an empty form with "daily"; errors and loading
        are reset. A closed dialog changes nothing. */
    method Prefill(isOpen: bool, isEdit: bool, initial: Option<Reminder>)
      modifies this
      ensures !isOpen ==> form == old(form) && errors == old(errors) && loading == old(loading)
      ensures isOpen && isEdit && initial.Some? ==>
                form == ReminderForm(initial.value.task, initial.value.timeOfDay,
                                     if initial.value.repeat == "" then "daily" else initial.value.repeat)
      ensures isOpen && !(isEdit && initial.Some?) ==> form == NewForm
      ensures isOpen ==> errors == NoErrors && !loading
    {
      if !isOpen {
        return;
      }
      if isEdit && initial.Some? {
        var r := initial.value;
        form := ReminderForm(r.task, r.timeOfDay, if r.repeat == "" then "daily" else r.repeat);
      } else {
        form := NewForm;
      }
      errors, loading := NoErrors, false;
    }

    /** The first half of `handleSubmit`: a form with errors shows them and `onSave`
        is not called; otherwise loading starts and the payload goes to `onSave`. */
    method BeginSubmit() returns (payload: Option<ReminderPayload>)
      modifies this
      ensures form == old(form)
      ensures Validate(old(form)) != NoErrors ==> payload.None? && errors == Validate(old(form)) && loading == old(loading)
      ensures Validate(old(form)) == NoErrors ==>
                payload == Some(ReminderPayload(Trim(old(form).task), Trim(old(form).timeOfDay), old(form).repeat))
                && errors == old(errors) && loading
    {
      var v := Validate(form);
      if v != NoErrors {
        errors := v;
        return None;
      }
      loading := true;
      payload := Some(ReminderPayload(Trim(form.task), Trim(form.timeOfDay), form.repeat));
    }

    /** The second half: the dialog closes when `onSave` resolved; a thrown error's
        message (or "Something went wrong") is shown. Loading ends either way. */
    method FinishSubmit(outcome: Outcome<()>) returns (closes: bool)
      modifies this
      ensures closes <==> outcome.Done?
      ensures form == old(form) && !loading
      ensures outcome.Done? ==> errors == old(errors)
      ensures outcome.Thrown? ==> errors == old(errors).(submit := Some(OrElse(Some(outcome.message), "Something went wrong")))
    {
      if outcome.Done? {
        closes := true;
      } else {
        errors := errors.(submit := Some(OrElse(Some(outcome.message), "Something went wrong")));
        closes := false;
      }
      loading := false;
    }

    /** `handleClose`: ignored while a save is in flight. */
    method HandleClose() returns (closes: bool)
      ensures closes <==> !loading
    {
      closes := !loading;
    }
  }
}
