/** The `useReminders` hook: the in-memory reminder list of one workspace and how each
    HTTP outcome changes it. Unlike the links hook, every write also requires
    `success` in the reply body. */
module UseReminders {
  import opened Collections
  import opened Api
  import opened ReminderModel

  /** A reply the hook accepts for a write: `res.ok && data.success`. */
  predicate Accepted<T>(res: Fetched<T>) {
    res.Received? && IsOk(res.reply.status) && res.reply.body.success
  }

  /** The message a rejected write throws: the network error, or the body's message,
      or the operation's fallback. */
  function Rejection<T>(res: Fetched<T>, fallback: string): (m: string)
    requires !Accepted(res)
    ensures res.Received? && fallback != "" ==> m != ""
    ensures res.Received? && res.reply.body.message.Some? && res.reply.body.message.value != "" ==>
              m == res.reply.body.message.value
    ensures res.Received? && (res.reply.body.message.None? || res.reply.body.message.value == "") ==> m == fallback
    ensures res.NetworkError? ==> m == res.message
  {
    match res
    case NetworkError(msg) => msg
    case Received(reply) => OrElse(reply.body.message, fallback)
  }

  /** The body `addReminder` posts: the caller's payload with `type` set to the
      workspace, whatever the payload said. */
  function AddRequestBody(payload: map<string, Value>, workspaceType: string): (body: map<string, Value>)
    ensures "type" in body && body["type"] == Str(workspaceType)
    ensures forall k :: k in payload && k != "type" ==> k in body && body[k] == payload[k]
    ensures body.Keys == payload.Keys + {"type"}
  {
    payload["type" := Str(workspaceType)]
  }

  class RemindersHook {
    const workspaceType: string
    var reminders: seq<Reminder>
    var loading: bool
    var error: string

    constructor (workspaceType: string)
      ensures this.workspaceType == workspaceType && reminders == [] && !loading && error == ""
    {
      this.workspaceType := workspaceType;
      reminders := [];
      loading := false;
      error := "";
    }

    /** The mount effect fetches only when a workspace is set. */
    predicate FetchesOnMount()
      reads this
    {
      workspaceType != ""
    }

    /** `fetchReminders` once the response `res` is in. */
    method FetchReminders(res: Fetched<seq<Reminder>>)
      modifies this`reminders, this`loading, this`error
      ensures !loading
      ensures res.Received? && IsOk(res.reply.status) ==>
                reminders == res.reply.body.data.GetOr([]) && error == ""
      ensures res.Received? && !IsOk(res.reply.status) ==>
                reminders == old(reminders) && error == OrElse(res.reply.body.message, "Failed to load reminders")
      ensures res.NetworkError? ==>
                reminders == old(reminders) && error == OrElse(Some(res.message), "Something went wrong while loading reminders")
    {
      loading := true;
      error := "";
      match res {
        case NetworkError(m) =>
          error := OrElse(Some(m), "Something went wrong while loading reminders");
        case Received(reply) =>
          if !IsOk(reply.status) {
            error := OrElse(reply.body.message, "Failed to load reminders");
          } else {
            reminders := reply.body.data.GetOr([]);
          }
      }
      loading := false;
    }

    /** `addReminder(payload)`: posts `AddRequestBody`; an accepted reply's reminder is
        appended at the end. */
    method AddReminder(payload: map<string, Value>, res: Fetched<Reminder>)
      returns (sent: map<string, Value>, outcome: Outcome<Option<Reminder>>)
      modifies this`reminders
      ensures sent == AddRequestBody(payload, workspaceType)
      ensures !Accepted(res) ==> outcome == Thrown(Rejection(res, "Failed to add reminder")) && reminders == old(reminders)
      ensures Accepted(res) ==> outcome == Done(res.reply.body.data)
      ensures Accepted(res) && res.reply.body.data.Some? ==> reminders == old(reminders) + [res.reply.body.data.value]
      ensures Accepted(res) && res.reply.body.data.None? ==> reminders == old(reminders)
    {
      sent := AddRequestBody(payload, workspaceType);
      if !Accepted(res) {
        outcome := Thrown(Rejection(res, "Failed to add reminder"));
      } else {
        var created := res.reply.body.data;
        if created.Some? {
          reminders := reminders + [created.value];
        }
        outcome := Done(created);
      }
    }

    /** The write shared by `markDoneToday` and `updateReminder`: an accepted reply's
        reminder replaces the one with the id. */
    method ReplaceFromReply(id: string, res: Fetched<Reminder>, fallback: string)
      returns (outcome: Outcome<Option<Reminder>>)
      modifies this`reminders
      ensures !Accepted(res) ==> outcome == Thrown(Rejection(res, fallback)) && reminders == old(reminders)
      ensures Accepted(res) ==> outcome == Done(res.reply.body.data)
      ensures Accepted(res) && res.reply.body.data.Some? ==>
                reminders == ReplaceWhere(old(reminders), (r: Reminder) => r.id == id, res.reply.body.data.value)
      ensures Accepted(res) && res.reply.body.data.None? ==> reminders == old(reminders)
    {
      if !Accepted(res) {
        outcome := Thrown(Rejection(res, fallback));
      } else {
        if res.reply.body.data.Some? {
          reminders := ReplaceWhere(reminders, (r: Reminder) => r.id == id, res.reply.body.data.value);
        }
        outcome := Done(res.reply.body.data);
      }
    }

    /** `markDoneToday(id)` */
    method MarkDoneToday(id: string, res: Fetched<Reminder>) returns (outcome: Outcome<Option<Reminder>>)
      modifies this`reminders
      ensures !Accepted(res) ==> outcome == Thrown(Rejection(res, "Failed to mark reminder done")) && reminders == old(reminders)
      ensures Accepted(res) ==> outcome == Done(res.reply.body.data)
      ensures Accepted(res) && res.reply.body.data.Some? ==>
                reminders == ReplaceWhere(old(reminders), (r: Reminder) => r.id == id, res.reply.body.data.value)
      ensures Accepted(res) && res.reply.body.data.None? ==> reminders == old(reminders)
    {
      outcome := ReplaceFromReply(id, res, "Failed to mark reminder done");
    }

    /** `updateReminder(id, payload)`; the payload goes to the server unchanged. */
    method UpdateReminder(id: string, res: Fetched<Reminder>) returns (outcome: Outcome<Option<Reminder>>)
      modifies this`reminders
      ensures !Accepted(res) ==> outcome == Thrown(Rejection(res, "Failed to update reminder")) && reminders == old(reminders)
      ensures Accepted(res) ==> outcome == Done(res.reply.body.data)
      ensures Accepted(res) && res.reply.body.data.Some? ==>
                reminders == ReplaceWhere(old(reminders), (r: Reminder) => r.id == id, res.reply.body.data.value)
      ensures Accepted(res) && res.reply.body.data.None? ==> reminders == old(reminders)
    {
      outcome := ReplaceFromReply(id, res, "Failed to update reminder");
    }

    /** `deleteReminder(id)`: only an accepted reply removes the reminders with the id. */
    method DeleteReminder(id: string, res: Fetched<Reminder>) returns (outcome: Outcome<Option<Reminder>>)
      modifies this`reminders
      ensures !Accepted(res) ==> outcome == Thrown(Rejection(res, "Failed to delete reminder")) && reminders == old(reminders)
      ensures Accepted(res) ==> outcome == Done(res.reply.body.data)
                                && reminders == Filter(old(reminders), (r: Reminder) => r.id != id)
    {
      if !Accepted(res) {
        outcome := Thrown(Rejection(res, "Failed to delete reminder"));
      } else {
        reminders := Filter(reminders, (r: Reminder) => r.id != id);
        outcome := Done(res.reply.body.data);
      }
    }
  }
}
