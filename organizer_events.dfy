/**
  The organizer's "My Events" page: who may see it and where everyone else
  is sent, the held list that delete updates, and the two aggregates
  (event total and attendee total).
 */
module OrganizerEvents {
  import opened Models
  import opened Lists
  import opened EventLists

  /** Organizers and admins may use the page. */
  predicate CanManage(user: Option<User>): (b: bool)
    ensures b ==> user.Some?
    ensures b <==> user.Some? && user.value.role != Attendee
  {
    user.Some? && (user.value.role == Organizer || user.value.role == Admin)
  }

  datatype Access = RedirectTo(path: string) | FetchMyEvents

  /**
    The mount decision: no user goes to the login page, a signed-in user who
    is neither organizer nor admin goes to the public events page, and only
    the remaining users fetch their events.
   */
  function AccessDecision(user: Option<User>): (a: Access)
    ensures a == RedirectTo("/auth/login") <==> user.None?
    ensures a == RedirectTo("/events") <==> user.Some? && user.value.role == Attendee
    ensures a == FetchMyEvents <==> CanManage(user)
  {
    if user.None? then RedirectTo("/auth/login")
    else if user.value.role != Organizer && user.value.role != Admin then
      assert user.value.role == Attendee;
      RedirectTo("/events")
    else FetchMyEvents
  }

  /** `event.attendees?.length || 0`. */
  function AttendeeCount(e: Event): (n: nat)
    ensures n == 0 <==> e.attendees.None? || e.attendees.value == []
    ensures e.attendees.Some? ==> n == |e.attendees.value|
  {
    if e.attendees.Some? then |e.attendees.value| else 0
  }

  /** The left fold `events.reduce((total, event) => total + AttendeeCount(event), acc)`. */
  function SumAttendees(acc: int, events: seq<Event>): (r: int)
    ensures acc <= r
    ensures forall e :: e in events ==> acc + AttendeeCount(e) <= r
    decreases |events|
  {
    if events == [] then acc
    else
      assert forall e :: e in events ==> e == events[0] || e in events[1..];
      SumAttendees(acc + AttendeeCount(events[0]), events[1..])
  }

  /** The fold starting from `acc` is `acc` plus the fold starting from 0. */
  lemma {:induction false} SumAttendeesShift(acc: int, events: seq<Event>)
    ensures SumAttendees(acc, events) == acc + SumAttendees(0, events)
    decreases |events|
  {
    if events != [] {
      SumAttendeesShift(acc + AttendeeCount(events[0]), events[1..]);
      SumAttendeesShift(AttendeeCount(events[0]), events[1..]);
    }
  }

  /**
    "Total Attendees": never negative, and at least the attendee count of
    each event in the list.
   */
  function TotalAttendees(events: seq<Event>): (n: int)
    ensures n >= 0
    ensures forall e :: e in events ==> AttendeeCount(e) <= n
  {
    SumAttendees(0, events)
  }


  /** One event contributes exactly its attendee count. */
  lemma TotalAttendeesSingle(e: Event)
    ensures TotalAttendees([e]) == AttendeeCount(e)
  {
    assert [e][1..] == [];
    assert SumAttendees(0, [e]) == SumAttendees(AttendeeCount(e), []);
  }

  /** The total over a concatenation is the sum of the totals. */
  lemma {:induction false} TotalAttendeesAppend(a: seq<Event>, b: seq<Event>)
    ensures TotalAttendees(a + b) == TotalAttendees(a) + TotalAttendees(b)
  {
    if a == [] {
      assert a + b == b;
    } else {
      TotalAttendeesAppend(a[1..], b);
      assert (a + b)[0] == a[0] && (a + b)[1..] == a[1..] + b;
      SumAttendeesShift(AttendeeCount(a[0]), a[1..] + b);
      SumAttendeesShift(AttendeeCount(a[0]), a[1..]);
    }
  }

  /** Deleting events never raises the attendee total. */
  lemma {:induction false} RemoveEventAttendees(events: seq<Event>, id: int)
    ensures TotalAttendees(RemoveEvent(events, id)) <= TotalAttendees(events)
  {
    var keep := (e: Event) => e.id != id;
    if events != [] {
      RemoveEventAttendees(events[1..], id);
      assert RemoveEvent(events[1..], id) == Filter(keep, events[1..]);
      SumAttendeesShift(AttendeeCount(events[0]), events[1..]);
      if keep(events[0]) {
        var rest := Filter(keep, events[1..]);
        assert RemoveEvent(events, id) == [events[0]] + rest;
        assert ([events[0]] + rest)[1..] == rest;
        SumAttendeesShift(AttendeeCount(events[0]), rest);
      }
    }
  }

  datatype Body = LoadingList | NoEventsYet | EventCards(cards: seq<Event>)

  datatype OrganizerView = RenderNothing | Page(totalEvents: nat, totalAttendees: int, body: Body)

  class OrganizerEventsPage {
    var user: Option<User>
    var events: seq<Event>
    var loading: bool

    constructor (user: Option<User>)
      ensures this.user == user && events == [] && loading
    {
      this.user := user;
      events := [];
      loading := true;
    }

    /**
      The mount effect, with `response` the answer of the "my events" request
      (None when it failed): redirected visitors fetch nothing; for the others
      a successful answer replaces the list and loading ends.
     */
    method Mount(response: Option<seq<Event>>) returns (decision: Access)
      modifies this`events, this`loading
      ensures decision == AccessDecision(user)
      ensures events == if decision.FetchMyEvents? && response.Some? then response.value else old(events)
      ensures loading == if decision.FetchMyEvents? then false else old(loading)
    {
      decision := AccessDecision(user);
      if decision.FetchMyEvents? {
        if response.Some? {
          events := response.value;
        }
        loading := false;
      }
    }

    /** Delete: only a confirmed delete whose API call succeeded changes the list. */
    method DeleteEvent(eventId: int, confirmed: bool, apiSucceeded: bool)
      modifies this`events
      ensures events == if confirmed && apiSucceeded then RemoveEvent(old(events), eventId) else old(events)
      ensures TotalAttendees(events) <= TotalAttendees(old(events))
    {
      if !confirmed {
        return;
      }
      if apiSucceeded {
        RemoveEventAttendees(events, eventId);
        events := RemoveEvent(events, eventId);
      }
    }

    /** What the page renders: nothing for visitors it does not serve, else the stats and the list. */
    function View(): (v: OrganizerView)
      reads this
      ensures v.RenderNothing? <==> !CanManage(user)
      ensures v.Page? ==> v.totalEvents == |events| && v.totalAttendees == TotalAttendees(events)
      ensures v.Page? ==> (v.body.LoadingList? <==> loading)
      ensures v.Page? ==> (v.body.NoEventsYet? <==> !loading && events == [])
      ensures v.Page? && v.body.EventCards? ==> v.body.cards == events
    {
      if !CanManage(user) then RenderNothing
      else
        var body := if loading then LoadingList else if events == [] then NoEventsYet else EventCards(events);
        Page(|events|, TotalAttendees(events), body)
    }
  }
}
