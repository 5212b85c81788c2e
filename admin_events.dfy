/**
  The admin event-management page: admin-only access, the search and
  status filter, the status counts, and the held event list that delete
  and the active/cancelled toggle update after a successful API call.
 */
module AdminEvents {
  import opened Models
  import opened Lists
  import opened EventLists

  /** The page fetches and shows its content only to an admin. */
  predicate IsAdmin(user: Option<User>): (b: bool)
    ensures b ==> user.Some?
    ensures b <==> user.Some? && user.value.role != Attendee && user.value.role != Organizer
  {
    user.Some? && user.value.role == Admin
  }

  /** `filterStatus === "all" || event.status === filterStatus`; a missing status equals no filter value. */
  predicate MatchesStatus(e: Event, filterStatus: string): (b: bool)
    ensures filterStatus == "all" ==> b
    ensures filterStatus != "all" ==> (b <==> e.status.Some? && e.status.value == filterStatus)
    ensures e.status.None? ==> (b <==> filterStatus == "all")
  {
    filterStatus == "all" || e.status == Some(filterStatus)
  }

  /** `filteredEvents`: the events matching both the search term and the status filter, in order. */
  function FilteredEvents(events: seq<Event>, term: string, filterStatus: string): (r: seq<Event>)
    ensures IsSubseq(r, events)
    ensures forall e :: e in r ==> e in events && MatchesSearch(e, term) && MatchesStatus(e, filterStatus)
    ensures forall e :: e in events && MatchesSearch(e, term) && MatchesStatus(e, filterStatus) ==> e in r
    ensures forall e :: e in events ==>
              multiset(r)[e] == if MatchesSearch(e, term) && MatchesStatus(e, filterStatus) then multiset(events)[e] else 0
  {
    var keep := (e: Event) => MatchesSearch(e, term) && MatchesStatus(e, filterStatus);
    FilterIsSubseq(keep, events);
    Filter(keep, events)
  }

  /** An empty term with status "all" keeps every event. */
  lemma NoFilterKeepsAll(events: seq<Event>)
    ensures FilteredEvents(events, [], "all") == events
  {
    forall e | e in events
      ensures MatchesSearch(e, [])
    {
      EmptyTermMatches(e);
    }
    FilterKeepsAll((e: Event) => MatchesSearch(e, []) && MatchesStatus(e, "all"), events);
  }

  /** One fetched active event, empty term, status "active": exactly that event is listed. */
  lemma SingleActiveEventScenario()
    ensures var e := Event(1, "A", None, "2025-01-01", 1, None, Some("active"), None);
            FilteredEvents([e], [], "active") == [e]
  {
  }

  /** The status the toggle sends: "active" becomes "cancelled", anything else becomes "active". */
  function NextStatus(current: string): (next: string)
    ensures next == "active" || next == "cancelled"
    ensures next == "cancelled" <==> current == "active"
  {
    if current == "active" then "cancelled" else "active"
  }

  /** Toggling twice returns to the start exactly for "active" and "cancelled". */
  lemma NextStatusInvolution(s: string)
    ensures NextStatus(NextStatus(s)) == s <==> s == "active" || s == "cancelled"
  {
  }

  /** The status the toggle button passes for `e`: `event.status || "active"`. */
  function ToggleArgument(e: Event): (s: string)
    ensures e.status.Some? && e.status.value != [] ==> s == e.status.value
    ensures e.status.None? || e.status == Some([]) ==> s == "active"
  {
    if e.status.Some? && e.status.value != [] then e.status.value else "active"
  }

  /** An event without a status is treated as active, so the toggle cancels it. */
  lemma MissingStatusGetsCancelled(e: Event)
    requires e.status.None?
    ensures NextStatus(ToggleArgument(e)) == "cancelled"
  {
  }

  /**
    `events.map(e => e.id === eventId ? { ...e, status } : e)`: same length
    and order; matching events change only their status.
   */
  function WithStatus(events: seq<Event>, id: int, status: string): (r: seq<Event>)
    ensures |r| == |events|
    ensures forall i :: 0 <= i < |events| && events[i].id == id ==> r[i] == events[i].(status := Some(status))
    ensures forall i :: 0 <= i < |events| && events[i].id != id ==> r[i] == events[i]
  {
    if events == [] then []
    else [if events[0].id == id then events[0].(status := Some(status)) else events[0]]
         + WithStatus(events[1..], id, status)
  }

  /** The list after a successful click on the toggle of the event at index `k`. */
  function ClickToggle(events: seq<Event>, k: nat): (r: seq<Event>)
    requires k < |events|
    ensures |r| == |events|
    ensures r[k] == events[k].(status := Some(NextStatus(ToggleArgument(events[k]))))
    ensures forall j :: 0 <= j < |events| && events[j].id == events[k].id ==>
              r[j] == events[j].(status := Some(NextStatus(ToggleArgument(events[k]))))
    ensures forall j :: 0 <= j < |events| && events[j].id != events[k].id ==> r[j] == events[j]
  {
    WithStatus(events, events[k].id, NextStatus(ToggleArgument(events[k])))
  }

  /** Every event with id `id` has status `status`. */
  ghost predicate AllWithStatus(events: seq<Event>, id: int, status: Option<string>)
  {
    forall j :: 0 <= j < |events| && events[j].id == id ==> events[j].status == status
  }

  /**
    Two successful clicks on the same event's toggle restore the list exactly
    when that event is "active" or "cancelled" and every event sharing its
    id has the same status.
   */
  lemma ToggleTwiceRestoresIff(events: seq<Event>, k: nat)
    requires k < |events|
    ensures ClickToggle(ClickToggle(events, k), k) == events
            <==> (events[k].status == Some("active") || events[k].status == Some("cancelled"))
                 && AllWithStatus(events, events[k].id, events[k].status)
  {
  }

  datatype EventStats = EventStats(total: nat, active: nat, cancelled: nat)

  /** `events.filter(e => e.status === status).length`: none exactly when no event has it, all exactly when every one does. */
  function CountStatus(events: seq<Event>, status: string): (c: nat)
    ensures c <= |events|
    ensures c == 0 <==> forall e :: e in events ==> e.status != Some(status)
    ensures c == |events| <==> forall e :: e in events ==> e.status == Some(status)
  {
    var has := (e: Event) => e.status == Some(status);
    var kept := Filter(has, events);
    assert kept != [] ==> kept[0] in kept;
    FilterLengthIff(has, events);
    |kept|
  }

  /** Counting over a concatenation adds the counts of the two parts. */
  lemma CountStatusAppend(a: seq<Event>, b: seq<Event>, status: string)
    ensures CountStatus(a + b, status) == CountStatus(a, status) + CountStatus(b, status)
  {
    FilterAppend((e: Event) => e.status == Some(status), a, b);
  }

  /** One event counts 1 exactly when it has the status, else 0. */
  lemma CountStatusSingle(e: Event, status: string)
    ensures CountStatus([e], status) == if e.status == Some(status) then 1 else 0
  {
    assert [e][1..] == [];
  }

  /** `eventStats` without the date-dependent count: each count, and their sum, is at most the total. */
  function Stats(events: seq<Event>): (st: EventStats)
    ensures st.total == |events|
    ensures st.active <= st.total && st.cancelled <= st.total
    ensures st.active + st.cancelled <= st.total
    ensures st.active == CountStatus(events, "active") && st.cancelled == CountStatus(events, "cancelled")
  {
    FilterDisjoint((e: Event) => e.status == Some("active"), (e: Event) => e.status == Some("cancelled"), events);
    EventStats(|events|, CountStatus(events, "active"), CountStatus(events, "cancelled"))
  }

  datatype AdminView =
    | AccessDenied
    | LoadingSpinner
    | Dashboard(stats: EventStats, shown: seq<Event>, showNoneFound: bool)

  class AdminEventsPage {
    var user: Option<User>
    var events: seq<Event>
    var loading: bool

    constructor (user: Option<User>)
      ensures this.user == user && events == [] && loading
    {
      this.user := user;
      events := [];
      loading := true;
    }

    /**
      The fetch on mount, with `response` the API's answer (None when the
      request failed): only an admin's page fetches; a successful answer
      replaces the list and a finished fetch ends loading.
     */
    method LoadEvents(response: Option<seq<Event>>) returns (fetched: bool)
      modifies this`events, this`loading
      ensures fetched <==> IsAdmin(user)
      ensures events == if fetched && response.Some? then response.value else old(events)
      ensures loading == if fetched then false else old(loading)
    {
      fetched := user.Some? && user.value.role == Admin;
      if fetched {
        if response.Some? {
          events := response.value;
        }
        loading := false;
      }
    }

    /** Delete: the list changes only when the admin confirmed and the API call succeeded. */
    method DeleteEvent(eventId: int, confirmed: bool, apiSucceeded: bool)
      modifies this`events
      ensures events == if confirmed && apiSucceeded then RemoveEvent(old(events), eventId) else old(events)
      ensures confirmed && apiSucceeded ==> forall e :: e in events ==> e.id != eventId
    {
      if confirmed && apiSucceeded {
        events := RemoveEvent(events, eventId);
      }
    }

    /** The toggle handler: on API success every event with `eventId` takes the next status. */
    method ToggleEventStatus(eventId: int, currentStatus: string, apiSucceeded: bool)
      modifies this`events
      ensures events == if apiSucceeded then WithStatus(old(events), eventId, NextStatus(currentStatus)) else old(events)
    {
      var newStatus := NextStatus(currentStatus);
      if apiSucceeded {
        events := WithStatus(events, eventId, newStatus);
      }
    }

    /** What the page renders for the current search term and status filter. */
    function View(term: string, filterStatus: string): (v: AdminView)
      reads this
      ensures v.AccessDenied? <==> !IsAdmin(user)
      ensures v.LoadingSpinner? <==> IsAdmin(user) && loading
      ensures v.Dashboard? ==> v.stats == Stats(events) && v.shown == FilteredEvents(events, term, filterStatus)
      ensures v.Dashboard? ==> (v.showNoneFound <==> v.shown == [])
    {
      if !IsAdmin(user) then AccessDenied
      else if loading then LoadingSpinner
      else
        var shown := FilteredEvents(events, term, filterStatus);
        Dashboard(Stats(events), shown, shown == [])
    }
  }
}
