/** The optimistic delete-with-undo flow shared by the links page and the reminder
    center: confirming hides an entity at once and starts a 3-second timer whose
    callback performs the backend delete (and unhides the entity if that fails);
    undo, before the timer fires, cancels the timer and unhides the entity.

    Timers are explicit: `scheduled` is the browser's queue of armed timers, from
    handle to the id its callback deletes, and a callback runs as one atomic step
    (`Fire`). `deleteCalls` logs the backend delete requests the callbacks made and
    `removed` the ids whose delete succeeded. */
module DeleteUndo {
  import opened Collections

  datatype State = State(hidden: seq<string>, pending: Option<string>, timer: Option<nat>,
                         scheduled: map<nat, string>, nextHandle: nat, deleteCalls: seq<string>,
                         removed: seq<string>)

  const Initial: State := State([], None, None, map[], 1, [], [])

  /** Handles are fresh above `nextHandle`; `pending` and `timer` are set and cleared
      together, and the remembered timer is armed for the pending id. */
  predicate Valid(s: State) {
    (forall h :: h in s.scheduled ==> h < s.nextHandle)
    && s.pending.Some? == s.timer.Some?
    && (s.timer.Some? ==> s.timer.value in s.scheduled && s.scheduled[s.timer.value] == s.pending.value)
  }

  /** `prev.filter((x) => x !== id)` */
  function Unhide(hidden: seq<string>, id: string): (r: seq<string>)
    ensures forall x :: x in r <==> x in hidden && x != id
  {
    Filter(hidden, x => x != id)
  }

  function Cancel(scheduled: map<nat, string>, timer: Option<nat>): (r: map<nat, string>)
    ensures timer.Some? ==> timer.value !in r
    ensures forall h :: h in r <==> h in scheduled && timer != Some(h)
    ensures forall h :: h in r ==> r[h] == scheduled[h]
  {
    if timer.Some? then scheduled - {timer.value} else scheduled
  }

  /** Confirming the delete of the displayed entity `id`, as written: hide it, make it
      pending, cancel the timer remembered for the previous pending entity, arm a new
      timer and remember it. */
  function Confirm(s: State, id: string): (t: State)
    ensures t.hidden == s.hidden + [id] && t.pending == Some(id)
    ensures t.deleteCalls == s.deleteCalls && t.removed == s.removed
    ensures t.timer == Some(s.nextHandle) && t.scheduled == Cancel(s.scheduled, s.timer)[s.nextHandle := id]
    ensures Valid(s) ==> Valid(t)
  {
    State(s.hidden + [id], Some(id), Some(s.nextHandle), Cancel(s.scheduled, s.timer)[s.nextHandle := id],
          s.nextHandle + 1, s.deleteCalls, s.removed)
  }

  /** Timer `h` fires, as written: it asks the backend to delete its entity
      (`deleted` is the outcome); on failure the entity is unhidden; either way the
      `finally` clears the pending slot and the remembered timer. */
  function Fire(s: State, h: nat, deleted: bool): (t: State)
    requires h in s.scheduled
    ensures t.deleteCalls == s.deleteCalls + [s.scheduled[h]] && h !in t.scheduled
    ensures deleted ==> t.hidden == s.hidden && t.removed == s.removed + [s.scheduled[h]]
    ensures !deleted ==> (forall x :: x in t.hidden <==> x in s.hidden && x != s.scheduled[h]) && t.removed == s.removed
    ensures t.pending.None? && t.timer.None?
    ensures Valid(s) ==> Valid(t)
  {
    var id := s.scheduled[h];
    State(if deleted then s.hidden else Unhide(s.hidden, id), None, None, s.scheduled - {h},
          s.nextHandle, s.deleteCalls + [id], if deleted then s.removed + [id] else s.removed)
  }

  /** Undo: nothing without a pending entity; otherwise cancel the remembered timer,
      unhide exactly the pending id and clear the pending slot. */
  function Undo(s: State): (t: State)
    ensures s.pending.None? ==> t == s
    ensures s.pending.Some? ==> (forall x :: x in t.hidden <==> x in s.hidden && x != s.pending.value)
                                && t.pending.None? && t.timer.None?
                                && t.scheduled == Cancel(s.scheduled, s.timer)
    ensures t.deleteCalls == s.deleteCalls && t.removed == s.removed
    ensures Valid(s) ==> Valid(t)
  {
    if s.pending.None? then s
    else State(Unhide(s.hidden, s.pending.value), None, None, Cancel(s.scheduled, s.timer),
               s.nextHandle, s.deleteCalls, s.removed)
  }

  /** As written, at most one timer is ever armed: the remembered one. */
  predicate SingleTimer(s: State) {
    forall h :: h in s.scheduled ==> s.timer == Some(h)
  }

  lemma SingleTimerPreserved(s: State, id: string, h: nat, deleted: bool)
    requires SingleTimer(s)
    ensures SingleTimer(Confirm(s, id)) && SingleTimer(Undo(s))
    ensures h in s.scheduled ==> SingleTimer(Fire(s, h, deleted))
  {
  }

  /** Unhiding an id that was appended to a list without it gives the list back. */
  lemma UnhideAppended(hidden: seq<string>, id: string)
    requires id !in hidden
    ensures Unhide(hidden + [id], id) == hidden
  {
    FilterAppend(hidden, [id], x => x != id);
    FilterAll(hidden, x => x != id);
  }

  /** Confirm then undo restores the hidden list, disarms every timer and makes no
      backend call: the entity is visible again and is never deleted. */
  lemma {:induction false} UndoRestores(s: State, id: string)
    requires Valid(s) && SingleTimer(s) && id !in s.hidden
    ensures Undo(Confirm(s, id)).hidden == s.hidden
    ensures Undo(Confirm(s, id)).scheduled == map[]
    ensures Undo(Confirm(s, id)).deleteCalls == s.deleteCalls
    ensures Undo(Confirm(s, id)).pending.None?
  {
    UnhideAppended(s.hidden, id);
    var t := Undo(Confirm(s, id));
    assert forall h :: h !in t.scheduled;
  }

  /** Confirm then a failed backend delete: the entity is visible again and the
      hidden list is as before; the backend was asked exactly once. */
  lemma {:induction false} FailureRestores(s: State, id: string)
    requires Valid(s) && id !in s.hidden
    ensures Fire(Confirm(s, id), s.nextHandle, false).hidden == s.hidden
    ensures Fire(Confirm(s, id), s.nextHandle, false).deleteCalls == s.deleteCalls + [id]
    ensures Fire(Confirm(s, id), s.nextHandle, false).removed == s.removed
  {
    UnhideAppended(s.hidden, id);
  }

  /** Confirm then a successful delete: exactly one backend call for the entity, which
      stays hidden, and no timer for it is left. */
  lemma CommitOnce(s: State, id: string)
    requires Valid(s) && SingleTimer(s)
    ensures Fire(Confirm(s, id), s.nextHandle, true).deleteCalls == s.deleteCalls + [id]
    ensures Fire(Confirm(s, id), s.nextHandle, true).removed == s.removed + [id]
    ensures id in Fire(Confirm(s, id), s.nextHandle, true).hidden
    ensures Fire(Confirm(s, id), s.nextHandle, true).scheduled == map[]
  {
    var t := Fire(Confirm(s, id), s.nextHandle, true);
    assert forall h :: h !in t.scheduled;
  }

  /** `id` is stuck: hidden, no armed timer will delete it, undo does not reach it and
      the backend was never asked to delete it. */
  predicate Limbo(s: State, id: string) {
    id in s.hidden && id !in s.scheduled.Values && s.pending != Some(id) && id !in s.deleteCalls
  }

  /** The user's events. A confirm applies only to a displayed entity and a timer can
      fire only while armed; an event that does not apply changes nothing. */
  datatype Event = ConfirmEvent(id: string) | FireEvent(handle: nat, deleted: bool) | UndoEvent

  function Step(s: State, e: Event): State {
    match e
    case ConfirmEvent(id) => if id in s.hidden then s else Confirm(s, id)
    case FireEvent(h, ok) => if h in s.scheduled then Fire(s, h, ok) else s
    case UndoEvent => Undo(s)
  }

  function Run(s: State, events: seq<Event>): State
    decreases |events|
  {
    if events == [] then s else Run(Step(s, events[0]), events[1..])
  }

  /** Confirming `b` while `a` is pending, as written, cancels `a`'s timer: `a` ends in
      limbo. */
  lemma SecondConfirmStrandsFirst(s: State, a: string, b: string)
    requires a != b && a !in s.hidden && a !in s.scheduled.Values && a !in s.deleteCalls
    ensures Limbo(Confirm(Confirm(s, a), b), a)
  {
    var t := Confirm(Confirm(s, a), b);
    forall h | h in t.scheduled ensures t.scheduled[h] != a {
    }
  }

  lemma LimboStep(s: State, a: string, e: Event)
    requires Limbo(s, a)
    ensures Limbo(Step(s, e), a)
  {
    var t := Step(s, e);
    forall g | g in t.scheduled ensures t.scheduled[g] != a {
    }
  }

  /** Once in limbo, whatever happens next the entity stays hidden and is never
      deleted on the backend. */
  lemma {:induction false} LimboIsPermanent(s: State, a: string, events: seq<Event>)
    requires Limbo(s, a)
    ensures Limbo(Run(s, events), a)
    decreases |events|
  {
    if events != [] {
      LimboStep(s, a, events[0]);
      LimboIsPermanent(Step(s, events[0]), a, events[1..]);
    }
  }

  /** From a fresh page: confirm `a`, confirm `b`, and `a` is hidden for good. */
  lemma {:induction false} StrandedFromFreshPage(a: string, b: string, events: seq<Event>)
    requires a != b
    ensures a in Run(Confirm(Confirm(Initial, a), b), events).hidden
    ensures a !in Run(Confirm(Confirm(Initial, a), b), events).deleteCalls
  {
    SecondConfirmStrandsFirst(Initial, a, b);
    LimboIsPermanent(Confirm(Confirm(Initial, a), b), a, events);
  }

  // ---- Corrected flow: a second confirm leaves the first timer armed, and a
  // callback clears the pending slot only when it is the remembered timer.

  function ConfirmKeepingTimers(s: State, id: string): (t: State)
    ensures t.hidden == s.hidden + [id] && t.pending == Some(id)
    ensures t.deleteCalls == s.deleteCalls && t.removed == s.removed
    ensures t.timer == Some(s.nextHandle) && t.scheduled == s.scheduled[s.nextHandle := id]
    ensures Valid(s) ==> Valid(t)
  {
    State(s.hidden + [id], Some(id), Some(s.nextHandle), s.scheduled[s.nextHandle := id],
          s.nextHandle + 1, s.deleteCalls, s.removed)
  }

  function FireOwnTimer(s: State, h: nat, deleted: bool): (t: State)
    requires h in s.scheduled
    ensures t.deleteCalls == s.deleteCalls + [s.scheduled[h]] && h !in t.scheduled
    ensures deleted ==> t.hidden == s.hidden && t.removed == s.removed + [s.scheduled[h]]
    ensures !deleted ==> (forall x :: x in t.hidden <==> x in s.hidden && x != s.scheduled[h]) && t.removed == s.removed
    ensures s.timer == Some(h) ==> t.pending.None? && t.timer.None?
    ensures s.timer != Some(h) ==> t.pending == s.pending && t.timer == s.timer
    ensures Valid(s) ==> Valid(t)
  {
    var id := s.scheduled[h];
    var own := s.timer == Some(h);
    State(if deleted then s.hidden else Unhide(s.hidden, id),
          if own then None else s.pending, if own then None else s.timer,
          s.scheduled - {h}, s.nextHandle, s.deleteCalls + [id], if deleted then s.removed + [id] else s.removed)
  }

  function StepCorrected(s: State, e: Event): State {
    match e
    case ConfirmEvent(id) => if id in s.hidden then s else ConfirmKeepingTimers(s, id)
    case FireEvent(h, ok) => if h in s.scheduled then FireOwnTimer(s, h, ok) else s
    case UndoEvent => Undo(s)
  }

  function RunCorrected(s: State, events: seq<Event>): State
    decreases |events|
  {
    if events == [] then s else RunCorrected(StepCorrected(s, events[0]), events[1..])
  }

  /** Every hidden id is either awaiting an armed timer or was deleted on the
      backend (and so was sent there); armed timers are for distinct hidden ids. */
  predicate NoLimbo(s: State) {
    Valid(s)
    && (forall x :: x in s.hidden ==> x in s.scheduled.Values || x in s.removed)
    && (forall x :: x in s.removed ==> x in s.deleteCalls)
    && (forall h :: h in s.scheduled ==> s.scheduled[h] in s.hidden)
    && (forall h, g :: h in s.scheduled && g in s.scheduled && h != g ==> s.scheduled[h] != s.scheduled[g])
  }

  lemma NoLimboExcludesLimbo(s: State, a: string)
    requires NoLimbo(s)
    ensures !Limbo(s, a)
  {
  }

  lemma NoLimboStep(s: State, e: Event)
    requires NoLimbo(s)
    ensures NoLimbo(StepCorrected(s, e))
  {
    match e
    case ConfirmEvent(id) =>
      if id !in s.hidden {
        var t := ConfirmKeepingTimers(s, id);
        assert t.scheduled[s.nextHandle] == id;
        forall x | x in t.hidden ensures x in t.scheduled.Values || x in t.removed {
          if x != id && x !in s.removed {
            var h :| h in s.scheduled && s.scheduled[h] == x;
            assert t.scheduled[h] == x;
          }
        }
      }
    case FireEvent(h, ok) =>
      if h in s.scheduled {
        var t := FireOwnTimer(s, h, ok);
        forall x | x in t.hidden ensures x in t.scheduled.Values || x in t.removed {
          if x != s.scheduled[h] && x !in s.removed {
            var g :| g in s.scheduled && s.scheduled[g] == x;
            assert g != h && t.scheduled[g] == x;
          }
        }
      }
    case UndoEvent =>
      if s.pending.Some? {
        var t := Undo(s);
        forall x | x in t.hidden ensures x in t.scheduled.Values || x in t.removed {
          if x !in s.removed {
            var g :| g in s.scheduled && s.scheduled[g] == x;
            assert g != s.timer.value && t.scheduled[g] == x;
          }
        }
      }
  }

  /** With the correction no entity is ever stranded: every reachable state from a
      fresh page keeps `NoLimbo`. */
  lemma {:induction false} CorrectedNeverStrands(s: State, events: seq<Event>)
    requires NoLimbo(s)
    ensures NoLimbo(RunCorrected(s, events))
    decreases |events|
  {
    if events != [] {
      NoLimboStep(s, events[0]);
      CorrectedNeverStrands(StepCorrected(s, events[0]), events[1..]);
    }
  }

  /** The scenario that strands `a` as written: in the corrected flow `a`'s timer is
      still armed after `b` is confirmed, and undo still reaches `b`. */
  lemma CorrectedKeepsFirstTimer(a: string, b: string)
    requires a != b
    ensures a in RunCorrected(Initial, [ConfirmEvent(a), ConfirmEvent(b)]).scheduled.Values
    ensures RunCorrected(Initial, [ConfirmEvent(a), ConfirmEvent(b)]).pending == Some(b)
  {
    var s1 := StepCorrected(Initial, ConfirmEvent(a));
    var s2 := StepCorrected(s1, ConfirmEvent(b));
    assert [ConfirmEvent(a), ConfirmEvent(b)][1..] == [ConfirmEvent(b)];
    assert RunCorrected(s1, [ConfirmEvent(b)]) == RunCorrected(s2, []);
    assert s2.scheduled[1] == a;
  }
}
