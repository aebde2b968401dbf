/** The reminder endpoints of the backend: the validation and record building of
    create and update, marking a reminder done, the listing filter and order, and
    delete. The collection is a sequence of documents; `castable` stands for "the
    id casts to an ObjectId" (otherwise the driver throws a CastError). */
module RemindersController {
  import opened Text
  import opened Collections
  import opened Api
  import opened ReminderModel

  /** The fields of the request body the endpoints destructure. */
  datatype ReminderBody = ReminderBody(kind: Value, task: Value, timeOfDay: Value, repeat: Value, isActive: Value)

  /** `/^\d{2}:\d{2}$/.test(v)`: `test` reads its argument as `String(v)`. */
  predicate TimePattern(v: Value) {
    IsTimeOfDay(ToJsString(v))
  }

  /** `typeof isActive === "boolean" ? isActive : true` */
  function ActiveFlag(v: Value): (b: bool)
    ensures v.Bool? ==> b == v.b
    ensures !v.Bool? ==> b
  {
    if v.Bool? then v.b else true
  }

  /** `!type || !["office", "personal"].includes(type)`: `includes` compares with
      `===`, so only the two strings themselves pass. */
  predicate TypeAllowed(v: Value) {
    v.Str? && v.s in Workspaces
  }

  /** The two 400 answers the task and time checks give. */
  datatype Problem = TaskRequired | TimeInvalid

  /** What the checks decide: the value to go on with, a 400, or a TypeError that
      ends in the 500 handler. */
  datatype Verdict<T> = Pass(data: T) | Refuse(problem: Problem) | Throw

  /** The task and time checks that create and update share: task first, then the
      time pattern; on success the trimmed task and the time (which `trim` leaves
      as it is). */
  function CheckEntry(task: Value, timeOfDay: Value): (r: Verdict<(string, string)>)
    ensures BlankField(task) ==> r == Refuse(TaskRequired)
    ensures ThrowsOnTrim(task) ==> r == Throw
    ensures FilledText(task) && (!Truthy(timeOfDay) || !TimePattern(timeOfDay)) ==> r == Refuse(TimeInvalid)
    ensures FilledText(task) && Truthy(timeOfDay) && TimePattern(timeOfDay) && !timeOfDay.Str? ==> r == Throw
    ensures FilledText(task) && Truthy(timeOfDay) && TimePattern(timeOfDay) && timeOfDay.Str? ==>
              r == Pass((Trim(task.s), timeOfDay.s))
    ensures r.Pass? ==> r.data.0 != "" && IsTrimmed(r.data.0) && IsTimeOfDay(r.data.1)
  {
    match RequiredText(task)
    case Missing => Refuse(TaskRequired)
    case NoTrim => Throw
    case Given(t) =>
      if !Truthy(timeOfDay) || !TimePattern(timeOfDay) then Refuse(TimeInvalid)
      else if !timeOfDay.Str? then Throw
      else
        TimeOfDayIsTrimmed(timeOfDay.s);
        Pass((t, Trim(timeOfDay.s)))
  }

  function AddMessage(p: Problem): string {
    match p
    case TaskRequired => "Task is required"
    case TimeInvalid => "timeOfDay must be in HH:MM format (24h)"
  }

  function IdOf(r: Reminder): string {
    r.id
  }

  /** Every stored document satisfies the schema, and no two share an `_id`. */
  predicate ValidStore(store: seq<Reminder>) {
    (forall r :: r in store ==> Valid(r)) && UniqueBy(store, IdOf)
  }

  lemma ValidStoreSnoc(store: seq<Reminder>, r: Reminder)
    ensures ValidStore(store) && Valid(r) && !HasId(store, r.id) ==> ValidStore(store + [r])
  {
    assert forall x :: x in store + [r] ==> x in store || x == r;
    if ValidStore(store) && !HasId(store, r.id) {
      UniqueBySnoc(store, r, IdOf);
    }
  }

  /** Some stored document has the id. */
  predicate HasId(store: seq<Reminder>, id: string) {
    exists i :: 0 <= i < |store| && store[i].id == id
  }

  /** The fields `addReminder` hands to `Reminder.create`: no `repeat`, so the
      schema default applies. */
  function NewFields(b: ReminderBody, entry: (string, string)): Fields
    requires TypeAllowed(b.kind)
  {
    Fields(b.kind.s, entry.0, entry.1, Some(ActiveFlag(b.isActive)), None)
  }

  /** What passes the checks the schema accepts: the created document has the
      trimmed task, the time as sent, the flag and the default repeat. */
  lemma NewFieldsCreate(b: ReminderBody, id: string, now: int)
    requires TypeAllowed(b.kind) && CheckEntry(b.task, b.timeOfDay).Pass?
    ensures var entry := CheckEntry(b.task, b.timeOfDay).data;
            var r := Create(NewFields(b, entry), id, now);
            r.Some? && r.value.kind == b.kind.s && r.value.task == entry.0 && r.value.timeOfDay == entry.1
            && r.value.isActive == ActiveFlag(b.isActive) && r.value.repeat == "daily"
  {
    var entry := CheckEntry(b.task, b.timeOfDay).data;
    TrimOfTrimmed(entry.0);
    TimeOfDayIsTrimmed(entry.1);
  }

  /** `POST /excel/reminders`; `id` and `now` are the new document's ObjectId and
      creation time. */
  function AddReminder(b: ReminderBody, id: string, now: int, store: seq<Reminder>): (out: (Reply<Reminder>, seq<Reminder>))
    requires !HasId(store, id)
    ensures !TypeAllowed(b.kind) ==>
              out == (Failure(400, "type is required and must be 'office' or 'personal'"), store)
    ensures TypeAllowed(b.kind) && CheckEntry(b.task, b.timeOfDay).Refuse? ==>
              out == (Failure(400, AddMessage(CheckEntry(b.task, b.timeOfDay).problem)), store)
    ensures TypeAllowed(b.kind) && CheckEntry(b.task, b.timeOfDay).Throw? ==>
              out == (Failure(500, "Something went wrong while creating reminder"), store)
    ensures TypeAllowed(b.kind) && CheckEntry(b.task, b.timeOfDay).Pass? ==>
              out.0.body.data.Some?
              && var r := out.0.body.data.value;
              out == (Success(201, Some("Reminder created successfully"), r), store + [r])
              && Valid(r) && r.id == id && r.createdAt == now && r.kind == b.kind.s
              && r.task == CheckEntry(b.task, b.timeOfDay).data.0 && r.timeOfDay == b.timeOfDay.s
              && r.isActive == ActiveFlag(b.isActive) && r.repeat == "daily" && r.lastDoneDate == None
    ensures ValidStore(store) ==> ValidStore(out.1)
  {
    if !TypeAllowed(b.kind) then (Failure(400, "type is required and must be 'office' or 'personal'"), store)
    else
      match CheckEntry(b.task, b.timeOfDay)
      case Refuse(p) => (Failure(400, AddMessage(p)), store)
      case Throw => (Failure(500, "Something went wrong while creating reminder"), store)
      case Pass(entry) =>
        NewFieldsCreate(b, id, now);
        match Create(NewFields(b, entry), id, now)
        case Some(r) =>
          ValidStoreSnoc(store, r);
          (Success(201, Some("Reminder created successfully"), r), store + [r])
        case None => (Failure(500, "Something went wrong while creating reminder"), store)
  }

  /** Whatever else the body holds, `addReminder` reads no `repeat` from it. */
  lemma AddIgnoresRepeat(b: ReminderBody, repeat: Value, id: string, now: int, store: seq<Reminder>)
    requires !HasId(store, id)
    ensures AddReminder(b.(repeat := repeat), id, now, store) == AddReminder(b, id, now, store)
  {
  }

  /** `sort({ createdAt: 1 })`: oldest first. */
  predicate OldestFirst(a: Reminder, b: Reminder) {
    a.createdAt <= b.createdAt
  }

  /** The filter the listing applies: none for an absent or empty `type`, else that
      exact value, unchecked. */
  function TypeFilter(typeQuery: string): Reminder -> bool {
    (r: Reminder) => typeQuery == "" || r.kind == typeQuery
  }

  lemma FilterAllWhenNoQuery(typeQuery: string, store: seq<Reminder>)
    ensures typeQuery == "" ==> Filter(store, TypeFilter(typeQuery)) == store
  {
    if typeQuery == "" {
      FilterAll(store, TypeFilter(typeQuery));
    }
  }

  /** `GET /excel/reminders?type=`: never a 400; an unknown type just matches nothing. */
  function GetReminders(typeQuery: string, store: seq<Reminder>): (r: Reply<seq<Reminder>>)
    ensures r.status == 200 && r.body.success && r.body.data.Some?
    ensures Sorted(r.body.data.value, OldestFirst)
    ensures multiset(r.body.data.value) == multiset(Filter(store, TypeFilter(typeQuery)))
    ensures forall x :: x in r.body.data.value <==> x in store && (typeQuery == "" || x.kind == typeQuery)
    ensures typeQuery == "" ==> multiset(r.body.data.value) == multiset(store)
  {
    var kept := Filter(store, TypeFilter(typeQuery));
    var sorted := Sort(kept, OldestFirst);
    assert forall x :: x in sorted <==> x in multiset(kept);
    FilterAllWhenNoQuery(typeQuery, store);
    Success(200, None, sorted)
  }

  /** The type is not checked, but a type outside the workspaces matches no valid document. */
  lemma UnknownTypeListsNothing(typeQuery: string, store: seq<Reminder>)
    requires typeQuery != "" && typeQuery !in Workspaces && ValidStore(store)
    ensures GetReminders(typeQuery, store).body.data.value == []
  {
    FilterNone(store, TypeFilter(typeQuery));
  }

  /** The store after the document with the id is overwritten by `r`. */
  function WriteById(store: seq<Reminder>, id: string, r: Reminder): (s: seq<Reminder>)
    ensures |s| == |store|
    ensures forall i :: 0 <= i < |store| ==> s[i] == (if store[i].id == id then r else store[i])
    ensures ValidStore(store) && Valid(r) && r.id == id ==> ValidStore(s)
  {
    var s := ReplaceWhere(store, (x: Reminder) => x.id == id, r);
    assert forall x :: x in s ==> x == r || x in store;
    assert r.id == id ==> forall i :: 0 <= i < |s| ==> s[i].id == store[i].id;
    s
  }

  /** With unique ids, a write by id changes exactly one document. */
  lemma WriteByIdTouchesOne(store: seq<Reminder>, id: string, r: Reminder)
    requires ValidStore(store) && HasId(store, id)
    ensures exists k :: 0 <= k < |store| && store[k].id == id && WriteById(store, id, r) == store[k := r]
  {
    var k :| 0 <= k < |store| && store[k].id == id;
    assert forall i :: 0 <= i < |store| && i != k ==> store[i].id != id by {
      forall i | 0 <= i < |store| && i != k
        ensures store[i].id != id
      {
        if i < k {
          assert IdOf(store[i]) != IdOf(store[k]);
        } else {
          assert IdOf(store[k]) != IdOf(store[i]);
        }
      }
    }
    assert WriteById(store, id, r) == store[k := r];
  }

  /** `PATCH /excel/reminders/:id/done`: only `lastDoneDate` changes, to `now`. */
  function MarkReminderDoneToday(id: string, now: Instant, castable: string -> bool, store: seq<Reminder>)
    : (out: (Reply<Reminder>, seq<Reminder>))
    ensures id == "" ==> out == (Failure(400, "ID is required"), store)
    ensures id != "" && !castable(id) ==> out == (Failure(400, "Invalid ID format"), store)
    ensures id != "" && castable(id) && !HasId(store, id) ==> out == (Failure(404, "Reminder not found"), store)
    ensures id != "" && castable(id) && HasId(store, id) ==>
              out.0.body.data.Some?
              && var r := out.0.body.data.value;
              out.0 == Success(200, Some("Reminder marked as done for today"), r)
              && r.id == id && r.lastDoneDate == Some(now)
              && (exists i :: 0 <= i < |store| && store[i].id == id && r == store[i].(lastDoneDate := Some(now)))
              && out.1 == WriteById(store, id, r)
    ensures ValidStore(store) ==> ValidStore(out.1)
  {
    if id == "" then (Failure(400, "ID is required"), store)
    else if !castable(id) then (Failure(400, "Invalid ID format"), store)
    else
      match Find(store, (x: Reminder) => x.id == id)
      case None => (Failure(404, "Reminder not found"), store)
      case Some(found) =>
        var r := found.(lastDoneDate := Some(now));
        var i :| 0 <= i < |store| && store[i] == found;
        (Success(200, Some("Reminder marked as done for today"), r), WriteById(store, id, r))
  }

  function UpdateMessage(p: Problem): string {
    match p
    case TaskRequired => "Task is required"
    case TimeInvalid => "timeOfDay must be HH:MM format"
  }

  /** The update object: task and time always, `repeat` only when truthy,
      `isActive` only when it is a boolean. */
  datatype Change = Change(task: string, timeOfDay: string, repeat: Option<Value>, isActive: Option<bool>)

  function ChangeOf(b: ReminderBody, entry: (string, string)): (c: Change)
    ensures c.task == entry.0 && c.timeOfDay == entry.1
    ensures c.repeat.Some? <==> Truthy(b.repeat)
    ensures c.repeat.Some? ==> c.repeat.value == b.repeat
    ensures c.isActive.Some? <==> b.isActive.Bool?
    ensures c.isActive.Some? ==> c.isActive.value == b.isActive.b
  {
    Change(entry.0, entry.1, if Truthy(b.repeat) then Some(b.repeat) else None,
           if b.isActive.Bool? then Some(b.isActive.b) else None)
  }

  /** How the driver casts a value written to a String path: a string stays, a
      number or boolean becomes its text, anything else cannot be cast. */
  function CastString(v: Value): (r: Option<string>)
    ensures v.Str? ==> r == Some(v.s)
    ensures v.Arr? || v.Obj? ==> r.None?
  {
    match v
    case Str(s) => Some(s)
    case Num(_) => Some(ToJsString(v))
    case Bool(_) => Some(ToJsString(v))
    case _ => None
  }

  /** The change cannot be cast: the driver throws a CastError. */
  predicate CastFails(c: Change) {
    c.repeat.Some? && CastString(c.repeat.value).None?
  }

  /** The cast change breaks the `repeat` enum: `runValidators` throws. */
  predicate RepeatRejected(c: Change) {
    c.repeat.Some? && CastString(c.repeat.value).Some? && CastString(c.repeat.value).value !in Repeats
  }

  /** The stored reminder after a change that casts and validates: task and time
      replaced, `repeat` and `isActive` replaced when given, the rest kept. */
  function Changed(r: Reminder, c: Change): (u: Reminder)
    requires !CastFails(c) && !RepeatRejected(c)
    ensures u.id == r.id && u.kind == r.kind && u.lastDoneDate == r.lastDoneDate && u.createdAt == r.createdAt
    ensures u.task == c.task && u.timeOfDay == c.timeOfDay
    ensures u.repeat == (if c.repeat.Some? then CastString(c.repeat.value).value else r.repeat)
    ensures u.isActive == c.isActive.GetOr(r.isActive)
    ensures Valid(r) && c.task != "" && IsTrimmed(c.task) && IsTimeOfDay(c.timeOfDay) ==> Valid(u)
  {
    r.(task := c.task, timeOfDay := c.timeOfDay,
       repeat := if c.repeat.Some? then CastString(c.repeat.value).value else r.repeat,
       isActive := c.isActive.GetOr(r.isActive))
  }

  /** `PUT /excel/reminders/:id`. The id and the change are cast before the update
      runs (a CastError is reported as "Invalid ID format"), then the validators run,
      then the document is looked up. */
  function UpdateReminder(id: string, b: ReminderBody, castable: string -> bool, store: seq<Reminder>)
    : (out: (Reply<Reminder>, seq<Reminder>))
    ensures id == "" ==> out == (Failure(400, "ID is required"), store)
    ensures id != "" && CheckEntry(b.task, b.timeOfDay).Refuse? ==>
              out == (Failure(400, UpdateMessage(CheckEntry(b.task, b.timeOfDay).problem)), store)
    ensures id != "" && CheckEntry(b.task, b.timeOfDay).Throw? ==>
              out == (Failure(500, "Something went wrong while updating reminder"), store)
    ensures id != "" && CheckEntry(b.task, b.timeOfDay).Pass? ==>
              var c := ChangeOf(b, CheckEntry(b.task, b.timeOfDay).data);
              (!castable(id) || CastFails(c) ==> out == (Failure(400, "Invalid ID format"), store))
              && (castable(id) && !CastFails(c) && RepeatRejected(c) ==>
                    out == (Failure(500, "Something went wrong while updating reminder"), store))
              && (castable(id) && !CastFails(c) && !RepeatRejected(c) && !HasId(store, id) ==>
                    out == (Failure(404, "Reminder not found"), store))
              && (castable(id) && !CastFails(c) && !RepeatRejected(c) && HasId(store, id) ==>
                    out.0.body.data.Some?
                    && out.0 == Success(200, Some("Reminder updated successfully"), out.0.body.data.value)
                    && (exists i :: 0 <= i < |store| && store[i].id == id && out.0.body.data.value == Changed(store[i], c))
                    && out.1 == WriteById(store, id, out.0.body.data.value))
    ensures ValidStore(store) ==> ValidStore(out.1)
  {
    if id == "" then (Failure(400, "ID is required"), store)
    else
      match CheckEntry(b.task, b.timeOfDay)
      case Refuse(p) => (Failure(400, UpdateMessage(p)), store)
      case Throw => (Failure(500, "Something went wrong while updating reminder"), store)
      case Pass(entry) =>
        var c := ChangeOf(b, entry);
        if !castable(id) || CastFails(c) then (Failure(400, "Invalid ID format"), store)
        else if RepeatRejected(c) then (Failure(500, "Something went wrong while updating reminder"), store)
        else
          match Find(store, (x: Reminder) => x.id == id)
          case None => (Failure(404, "Reminder not found"), store)
          case Some(found) =>
            var u := Changed(found, c);
            var i :| 0 <= i < |store| && store[i] == found;
            (Success(200, Some("Reminder updated successfully"), u), WriteById(store, id, u))
  }

  /** `DELETE /excel/reminders/:id` */
  function DeleteReminder(id: string, castable: string -> bool, store: seq<Reminder>): (out: (Reply<Reminder>, seq<Reminder>))
    ensures id == "" ==> out == (Failure(400, "ID is required"), store)
    ensures id != "" && !castable(id) ==> out == (Failure(400, "Invalid ID format"), store)
    ensures id != "" && castable(id) && !HasId(store, id) ==> out == (Failure(404, "Reminder not found"), store)
    ensures id != "" && castable(id) && HasId(store, id) ==>
              out.0.body.data.Some?
              && out.0 == Success(200, Some("Reminder deleted successfully"), out.0.body.data.value)
              && out.0.body.data.value in store && out.0.body.data.value.id == id
              && (forall r :: r in out.1 <==> r in store && r.id != id) && Subseq(out.1, store)
    ensures ValidStore(store) ==> ValidStore(out.1)
  {
    if id == "" then (Failure(400, "ID is required"), store)
    else if !castable(id) then (Failure(400, "Invalid ID format"), store)
    else
      match Find(store, (x: Reminder) => x.id == id)
      case None => (Failure(404, "Reminder not found"), store)
      case Some(found) =>
        FilterIsSubseq(store, (x: Reminder) => x.id != id);
        FilterKeepsUnique(store, (x: Reminder) => x.id != id, IdOf);
        (Success(200, Some("Reminder deleted successfully"), found), Filter(store, (x: Reminder) => x.id != id))
  }
}
