/**
 * The quick-add card: the event list renders the form with `onAdd = addEvent`
 * (src/components/SharedEvents.tsx:155). One submission is the form's `doAdd`
 * around one `addEvent` call.
 */
module QuickAdd {
  import opened Wrappers
  import opened JsText
  import TaskForm
  import SharedEvents

  /** The event list's insert happened: somebody is signed in and the store took the row. */
  predicate Inserted(uid: Option<string>, response: SharedEvents.StoreResponse<SharedEvents.EventRow>) {
    SharedEvents.SignedIn(uid) && response.Ok?
  }

  /**
   * The wiring as written: `addEvent` reports a missing user and a rejected insert
   * with an alert and returns normally, so the form clears the title although no
   * event was added.
   */
  method SubmitAsWritten(
    form: TaskForm.Form, list: SharedEvents.EventList, toIso: string -> Option<string>,
    uid: Option<string>, response: SharedEvents.StoreResponse<SharedEvents.EventRow>)
    returns (attempt: TaskForm.AddAttempt)
    modifies form, list
    ensures attempt.Called? <==> old(form.CanAdd()) && toIso(old(form.startLocal)).Some?
    ensures attempt.Called? ==> attempt.outcome == TaskForm.Returned
    ensures attempt.Called? ==> attempt.submission.title == Trim(old(form.title))
    ensures attempt.Called? ==> form.title == ""
    ensures attempt.Called? && !Inserted(uid, response) ==> list.events == old(list.events) && form.title == ""
  {
    var iso := toIso(form.startLocal);
    if form.CanAdd() && iso.Some? {
      var request, alert := list.AddEvent(
        uid, Trim(form.title), TaskForm.TypeLabel(form.eventType), iso.value, response);
    }
    attempt := form.DoAdd(toIso, TaskForm.Returned);
  }

  /**
   * The wiring with `addEvent` throwing when it adds nothing, as the form's
   * try/finally expects: the title is cleared exactly when the event was added,
   * and kept for another try otherwise.
   */
  method Submit(
    form: TaskForm.Form, list: SharedEvents.EventList, toIso: string -> Option<string>,
    uid: Option<string>, response: SharedEvents.StoreResponse<SharedEvents.EventRow>)
    returns (attempt: TaskForm.AddAttempt)
    modifies form, list
    ensures attempt.Called? <==> old(form.CanAdd()) && toIso(old(form.startLocal)).Some?
    ensures attempt.Called? ==> attempt.submission.title == Trim(old(form.title))
    ensures attempt.Called? ==> (form.title == "" <==> Inserted(uid, response))
    ensures attempt.Called? && !Inserted(uid, response) ==>
              form.title == old(form.title) && list.events == old(list.events)
    ensures attempt.Called? && Inserted(uid, response) ==>
              |list.events| == |old(list.events)| + 1
    ensures !attempt.Called? ==> form.title == old(form.title) && list.events == old(list.events)
  {
    var iso := toIso(form.startLocal);
    var outcome := if Inserted(uid, response) then TaskForm.Returned else TaskForm.Threw;
    if form.CanAdd() && iso.Some? {
      var request, alert := list.AddEvent(
        uid, Trim(form.title), TaskForm.TypeLabel(form.eventType), iso.value, response);
    }
    attempt := form.DoAdd(toIso, outcome);
  }

  /**
   * A rejected insert under the wiring as written: the title typed by the user is
   * gone, and no event was added.
   */
  method RejectedInsertLosesTitle() returns (attempt: TaskForm.AddAttempt, title: string, events: seq<SharedEvents.EventRow>)
    ensures attempt.Called? && attempt.submission.title == "Feed cat"
    ensures title == "" && events == []
  {
    var form := new TaskForm.Form();
    form.SetTitle("Feed cat");
    form.SetStartLocal("2026-10-14T18:00");
    var list := new SharedEvents.EventList();
    assert !IsWhitespace(form.title[0]);
    assert Trim(form.title) == "Feed cat";
    attempt := SubmitAsWritten(
      form, list, (s: string) => Some("2026-10-14T16:00:00.000Z"),
      Some("user-1"), SharedEvents.Err("permission denied"));
    title, events := form.title, list.events;
  }
}
