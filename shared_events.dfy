/**
 * The shared-calendar event list (src/components/SharedEvents.tsx): the signed-in
 * user's events kept in memory, loaded from and written through to a remote store,
 * and a filtered view by time window and event type. Each handler is one atomic
 * step; the identity provider's answer and the store's response are its inputs.
 */
module SharedEvents {
  import opened Wrappers
  import opened JsText
  import opened DateUtil
  import TaskForm

  /** One row of the `events` table. */
  datatype EventRow = EventRow(
    id: string,
    userId: string,
    title: string,
    startTime: string,
    createdAt: string,
    calendarId: Option<string>,
    completed: bool,
    eventType: string)

  datatype ViewMode = Today | All | Completed

  /** The type buttons: everything, or the one type whose text must match. */
  datatype TypeFilter = AllTypes | OnlyType(t: TaskForm.EventType)

  /** A store call either succeeds with a value or fails with an error message. */
  datatype StoreResponse<T> = Ok(value: T) | Err(message: string)

  /** The row `addEvent` asks the store to insert. */
  datatype NewEvent = NewEvent(userId: string, title: string, eventType: string, startTime: string, completed: bool)

  /** The change `toggleCompleted` asks the store to make. */
  datatype CompletedUpdate = CompletedUpdate(id: string, completed: bool)

  const LoginRequired: string := "You must be logged in to add events."

  /** `getUserId()` gave a user: `null` and the empty string are both falsy and mean nobody. */
  predicate SignedIn(uid: Option<string>) {
    uid.Some? && uid.value != ""
  }

  // ---- Local days ----

  /**
   * `isSameLocalDay(a, b)`: equal local year, month and day of the month. An
   * Invalid Date reports NaN for each, and NaN equals nothing.
   */
  function SameLocalDay(z: Zone, a: DateValue, b: DateValue): (r: bool)
    ensures r <==> a.Valid? && b.Valid? && LocalDay(z, a.time) == LocalDay(z, b.time)
  {
    a.Valid? && b.Valid?
    && LocalDay(z, a.time).year == LocalDay(z, b.time).year
    && LocalDay(z, a.time).month == LocalDay(z, b.time).month
    && LocalDay(z, a.time).date == LocalDay(z, b.time).date
  }

  lemma SameLocalDayReflexive(z: Zone, t: TimeValue)
    ensures SameLocalDay(z, Valid(t), Valid(t))
  {
  }

  /** Not reflexive on an Invalid Date. */
  lemma InvalidIsNoDay(z: Zone, d: DateValue)
    ensures !SameLocalDay(z, Invalid, d) && !SameLocalDay(z, d, Invalid)
  {
  }

  lemma SameLocalDaySymmetric(z: Zone, a: DateValue, b: DateValue)
    ensures SameLocalDay(z, a, b) == SameLocalDay(z, b, a)
  {
  }

  lemma SameLocalDayTransitive(z: Zone, a: DateValue, b: DateValue, c: DateValue)
    requires SameLocalDay(z, a, b) && SameLocalDay(z, b, c)
    ensures SameLocalDay(z, a, c)
  {
  }

  /** `isToday` of the date utilities is this predicate against the clock reading. */
  lemma IsTodayIsSameLocalDay(z: Zone, d: DateValue, now: TimeValue)
    ensures IsToday(z, d, now) == SameLocalDay(z, d, Valid(now))
  {
  }

  // ---- The filtered view ----

  /** `array.filter(p)`: the elements that pass, in their order. */
  function Filter(s: seq<EventRow>, p: EventRow -> bool): (r: seq<EventRow>)
    ensures |r| <= |s|
    ensures forall e :: e in r <==> e in s && p(e)
  {
    if s == [] then [] else (if p(s[0]) then [s[0]] else []) + Filter(s[1..], p)
  }

  /** Filtering a concatenation filters each part in place: the kept rows keep their order. */
  lemma {:induction false} FilterAppend(s: seq<EventRow>, t: seq<EventRow>, p: EventRow -> bool)
    ensures Filter(s + t, p) == Filter(s, p) + Filter(t, p)
  {
    if s != [] {
      var head := if p(s[0]) then [s[0]] else [];
      assert (s + t)[0] == s[0] && (s + t)[1..] == s[1..] + t;
      FilterAppend(s[1..], t, p);
      assert Filter(s + t, p) == head + (Filter(s[1..], p) + Filter(t, p));
    } else {
      assert s + t == t;
    }
  }

  /** A test every row passes keeps the whole list. */
  lemma {:induction false} FilterKeepsAll(s: seq<EventRow>, p: EventRow -> bool)
    requires forall e :: e in s ==> p(e)
    ensures Filter(s, p) == s
  {
    if s != [] {
      FilterKeepsAll(s[1..], p);
    }
  }

  /** Filtering by a conjunction is filtering by one test and then the other. */
  lemma {:induction false} FilterConjunction(
    s: seq<EventRow>, p: EventRow -> bool, q: EventRow -> bool, both: EventRow -> bool)
    requires forall e :: both(e) == (p(e) && q(e))
    ensures Filter(s, both) == Filter(Filter(s, p), q)
  {
    if s != [] {
      FilterConjunction(s[1..], p, q, both);
      FilterAppend(if p(s[0]) then [s[0]] else [], Filter(s[1..], p), q);
    }
  }

  /** The time-window part: `today` keeps the rows whose start falls on today's local day. */
  predicate InWindow(view: ViewMode, z: Zone, parse: string -> DateValue, now: TimeValue, e: EventRow) {
    view != Today || SameLocalDay(z, parse(e.startTime), Valid(now))
  }

  /** The `completed` view keeps only completed rows. */
  predicate ShownInView(view: ViewMode, e: EventRow) {
    view != Completed || e.completed
  }

  /** The type part: every row, or those whose type text is the filter's. */
  predicate MatchesType(typeFilter: TypeFilter, e: EventRow) {
    typeFilter.AllTypes? || e.eventType == TaskForm.TypeLabel(typeFilter.t)
  }

  /** The test of the `filtered` memo, as its three early returns read. */
  function Keeps(view: ViewMode, typeFilter: TypeFilter, z: Zone, parse: string -> DateValue, now: TimeValue)
    : (keep: EventRow -> bool)
    ensures forall e :: keep(e) <==> InWindow(view, z, parse, now, e) && ShownInView(view, e) && MatchesType(typeFilter, e)
  {
    (e: EventRow) =>
      if view == Today && !SameLocalDay(z, parse(e.startTime), Valid(now)) then false
      else if view == Completed && !e.completed then false
      else if typeFilter != AllTypes && e.eventType != TaskForm.TypeLabel(typeFilter.t) then false
      else true
  }

  /**
   * `filtered`: the rows of `events` the view shows. `parse` is `new Date(text)` and
   * `now` the clock reading taken when the memo is computed. A row is shown exactly
   * when it is an event and passes all three tests.
   */
  function Filtered(
    events: seq<EventRow>, view: ViewMode, typeFilter: TypeFilter,
    z: Zone, parse: string -> DateValue, now: TimeValue): (r: seq<EventRow>)
    ensures |r| <= |events|
    ensures forall e :: e in r <==>
              e in events && InWindow(view, z, parse, now, e) && ShownInView(view, e)
              && MatchesType(typeFilter, e)
  {
    Filter(events, Keeps(view, typeFilter, z, parse, now))
  }

  /** The view lists its rows in the order of `events`. */
  lemma FilteredKeepsOrder(
    s: seq<EventRow>, t: seq<EventRow>, view: ViewMode, typeFilter: TypeFilter,
    z: Zone, parse: string -> DateValue, now: TimeValue)
    ensures Filtered(s + t, view, typeFilter, z, parse, now)
            == Filtered(s, view, typeFilter, z, parse, now) + Filtered(t, view, typeFilter, z, parse, now)
  {
    FilterAppend(s, t, Keeps(view, typeFilter, z, parse, now));
  }

  /** View `all` with type `All` shows every event. */
  lemma FilteredAllIsEverything(events: seq<EventRow>, z: Zone, parse: string -> DateValue, now: TimeValue)
    ensures Filtered(events, All, AllTypes, z, parse, now) == events
  {
    FilterKeepsAll(events, Keeps(All, AllTypes, z, parse, now));
  }

  /**
   * The two filters compose: applying the view's test and then the type's, or the
   * type's and then the view's, gives the same rows as the memo.
   */
  lemma FiltersCompose(
    events: seq<EventRow>, view: ViewMode, typeFilter: TypeFilter,
    z: Zone, parse: string -> DateValue, now: TimeValue)
    ensures Filtered(events, view, typeFilter, z, parse, now)
            == Filter(Filter(events, e => InWindow(view, z, parse, now, e) && ShownInView(view, e)),
                      e => MatchesType(typeFilter, e))
    ensures Filtered(events, view, typeFilter, z, parse, now)
            == Filter(Filter(events, e => MatchesType(typeFilter, e)),
                      e => InWindow(view, z, parse, now, e) && ShownInView(view, e))
  {
    var time := (e: EventRow) => InWindow(view, z, parse, now, e) && ShownInView(view, e);
    var kind := (e: EventRow) => MatchesType(typeFilter, e);
    FilterConjunction(events, time, kind, Keeps(view, typeFilter, z, parse, now));
    FilterConjunction(events, kind, time, Keeps(view, typeFilter, z, parse, now));
  }

  // ---- Sorting by start time ----

  /** Non-decreasing by `start_time` in string order: no row starts after a later one. */
  ghost predicate SortedByStart(s: seq<EventRow>) {
    forall i, j :: 0 <= i < j < |s| ==> NotAfter(s[i].startTime, s[j].startTime)
  }

  /**
   * `next.sort((a, b) => (a.start_time > b.start_time ? 1 : -1))`, in place. The
   * comparator never answers 0, so the order of rows with equal starts is not
   * determined; the array ends up sorted by start and a permutation of what it held.
   * The algorithm is insertion sort.
   */
  method SortByStart(a: array<EventRow>)
    modifies a
    ensures SortedByStart(a[..])
    ensures multiset(a[..]) == multiset(old(a[..]))
  {
    var i := 0;
    while i < a.Length
      invariant 0 <= i <= a.Length
      invariant forall k, l :: 0 <= k < l < i ==> NotAfter(a[k].startTime, a[l].startTime)
      invariant multiset(a[..]) == multiset(old(a[..]))
    {
      InsertIntoSorted(a, i);
      i := i + 1;
    }
  }

  /**
   * One pass of the insertion sort: with `a[..i]` sorted, `a[i]` is swapped down
   * past every earlier row that starts after it, leaving `a[..i + 1]` sorted.
   */
  method InsertIntoSorted(a: array<EventRow>, i: nat)
    requires i < a.Length
    requires forall k, l :: 0 <= k < l < i ==> NotAfter(a[k].startTime, a[l].startTime)
    modifies a
    ensures forall k, l :: 0 <= k < l <= i ==> NotAfter(a[k].startTime, a[l].startTime)
    ensures multiset(a[..]) == multiset(old(a[..]))
  {
    var j := i;
    while j > 0 && Less(a[j].startTime, a[j - 1].startTime)
      invariant 0 <= j <= i
      invariant forall k, l :: 0 <= k < l <= i && k != j && l != j ==> NotAfter(a[k].startTime, a[l].startTime)
      invariant forall l :: j < l <= i ==> NotAfter(a[j].startTime, a[l].startTime)
      invariant multiset(a[..]) == multiset(old(a[..]))
    {
      LessAsymmetric(a[j].startTime, a[j - 1].startTime);
      a[j - 1], a[j] := a[j], a[j - 1];
      j := j - 1;
    }
    forall k | 0 <= k < j
      ensures NotAfter(a[k].startTime, a[j].startTime)
    {
      if k < j - 1 {
        NotAfterTransitive(a[k].startTime, a[j - 1].startTime, a[j].startTime);
      }
    }
  }

  // ---- Toggling ----

  /** `prev.map(e => e.id === id ? { ...e, completed } : e)`. */
  function SetCompleted(rows: seq<EventRow>, id: string, completed: bool): (r: seq<EventRow>)
    ensures |r| == |rows|
    ensures forall i :: 0 <= i < |rows| && rows[i].id == id ==> r[i].completed == completed
    ensures forall i :: 0 <= i < |rows| ==> r[i].(completed := rows[i].completed) == rows[i]
    ensures forall i :: 0 <= i < |rows| && rows[i].id != id ==> r[i] == rows[i]
  {
    seq(|rows|, i requires 0 <= i < |rows| =>
      if rows[i].id == id then rows[i].(completed := completed) else rows[i])
  }

  /** Setting the same value twice is setting it once. */
  lemma SetCompletedIdempotent(rows: seq<EventRow>, id: string, completed: bool)
    ensures SetCompleted(SetCompleted(rows, id, completed), id, completed) == SetCompleted(rows, id, completed)
  {
  }

  /** Setting a row's flag to the value it already has changes nothing. */
  lemma SetCompletedToCurrent(rows: seq<EventRow>, id: string, completed: bool)
    requires forall i :: 0 <= i < |rows| && rows[i].id == id ==> rows[i].completed == completed
    ensures SetCompleted(rows, id, completed) == rows
  {
  }

  // ---- The component's state ----

  class EventList {
    var events: seq<EventRow>
    var loading: bool
    var view: ViewMode
    var typeFilter: TypeFilter

    /** The initial state: no events, not loading, view `today`, type `All`. */
    constructor ()
      ensures events == [] && !loading && view == Today && typeFilter == AllTypes
    {
      events, loading, view, typeFilter := [], false, Today, AllTypes;
    }

    /**
     * `loadEvents`, where `uid` is what `getUserId()` gave and `response` what the
     * select query gave (its data may be `null`). Nobody signed in empties the list;
     * a store error is logged and leaves the list as it was; `loading` is false at
     * the end on every path.
     */
    method LoadEvents(uid: Option<string>, response: StoreResponse<Option<seq<EventRow>>>)
      modifies this
      ensures !loading
      ensures !SignedIn(uid) ==> events == []
      ensures SignedIn(uid) && response.Err? ==> events == old(events)
      ensures SignedIn(uid) && response.Ok? ==> events == response.value.GetOr([])
      ensures view == old(view) && typeFilter == old(typeFilter)
    {
      loading := true;
      if !SignedIn(uid) {
        events := [];
      } else if response.Ok? {
        events := response.value.GetOr([]);
      }
      loading := false;
    }

    /**
     * `addEvent(title, type, start_time)`: with nobody signed in, only the alert;
     * otherwise the insert of a not-completed row for the user is sent first, and
     * only the row the store returns is added, after which the list is re-sorted by
     * start. A store error is alerted and leaves the list as it was.
     */
    method AddEvent(uid: Option<string>, title: string, eventType: string, startTime: string,
                    response: StoreResponse<EventRow>)
      returns (request: Option<NewEvent>, alert: Option<string>)
      modifies this
      ensures request == if SignedIn(uid) then Some(NewEvent(uid.value, title, eventType, startTime, false)) else None
      ensures !SignedIn(uid) ==> alert == Some(LoginRequired)
      ensures SignedIn(uid) && response.Err? ==> alert == Some(response.message)
      ensures SignedIn(uid) && response.Ok? ==> alert == None
      ensures !SignedIn(uid) || response.Err? ==> events == old(events)
      ensures SignedIn(uid) && response.Ok? ==>
                |events| == |old(events)| + 1
                && multiset(events) == multiset(old(events) + [response.value])
                && SortedByStart(events)
      ensures loading == old(loading) && view == old(view) && typeFilter == old(typeFilter)
    {
      if !SignedIn(uid) {
        return None, Some(LoginRequired);
      }
      request := Some(NewEvent(uid.value, title, eventType, startTime, false));
      if response.Err? {
        return request, Some(response.message);
      }
      var prev := events + [response.value];
      var next := new EventRow[|prev|](i requires 0 <= i < |prev| => prev[i]);
      assert next[..] == prev;
      SortByStart(next);
      events := next[..];
      assert |multiset(events)| == |multiset(prev)|;
      alert := None;
    }

    /**
     * `toggleCompleted(id, nextCompleted)`: the update is sent first; a store error
     * is alerted and leaves the list as it was; on success every row with that id
     * gets the new flag and nothing else changes.
     */
    method ToggleCompleted(id: string, nextCompleted: bool, response: StoreResponse<()>)
      returns (request: CompletedUpdate, alert: Option<string>)
      modifies this
      ensures request == CompletedUpdate(id, nextCompleted)
      ensures response.Err? ==> alert == Some(response.message) && events == old(events)
      ensures response.Ok? ==> alert == None && events == SetCompleted(old(events), id, nextCompleted)
      ensures loading == old(loading) && view == old(view) && typeFilter == old(typeFilter)
    {
      request := CompletedUpdate(id, nextCompleted);
      if response.Err? {
        return request, Some(response.message);
      }
      events := SetCompleted(events, id, nextCompleted);
      alert := None;
    }

    method SetView(mode: ViewMode)
      modifies this
      ensures view == mode
      ensures events == old(events) && loading == old(loading) && typeFilter == old(typeFilter)
    {
      view := mode;
    }

    method SetTypeFilter(filter: TypeFilter)
      modifies this
      ensures typeFilter == filter
      ensures events == old(events) && loading == old(loading) && view == old(view)
    {
      typeFilter := filter;
    }

    /** The rows on screen; a function of the state, which it leaves alone. */
    function Shown(z: Zone, parse: string -> DateValue, now: TimeValue): (r: seq<EventRow>)
      reads this
      ensures |r| <= |events| && forall e :: e in r ==> e in events
    {
      Filtered(events, view, typeFilter, z, parse, now)
    }
  }
}
