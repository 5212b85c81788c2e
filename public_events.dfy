/**
  The public events page: the search over the fetched events and the
  message shown when nothing is found.
 */
module PublicEvents {
  import opened Models
  import opened Lists
  import opened Text
  import opened EventLists

  /** `filteredEvents`: the events matching `term`, in fetched order. */
  function SearchEvents(events: seq<Event>, term: string): (r: seq<Event>)
    ensures IsSubseq(r, events)
    ensures forall e :: e in r ==> e in events && MatchesSearch(e, term)
    ensures forall e :: e in events && MatchesSearch(e, term) ==> e in r
    ensures forall e :: e in events ==> multiset(r)[e] == if MatchesSearch(e, term) then multiset(events)[e] else 0
  {
    var matches := (e: Event) => MatchesSearch(e, term);
    FilterIsSubseq(matches, events);
    Filter(matches, events)
  }

  /** The empty search term keeps every event. */
  lemma EmptyTermKeepsAll(events: seq<Event>)
    ensures SearchEvents(events, []) == events
  {
    forall e | e in events
      ensures MatchesSearch(e, [])
    {
      EmptyTermMatches(e);
    }
    FilterKeepsAll((e: Event) => MatchesSearch(e, []), events);
  }

  /** Extending the term narrows the results to a subsequence of the previous ones. */
  lemma LongerTermNarrows(events: seq<Event>, s: string, t: string)
    requires s <= t
    ensures IsSubseq(SearchEvents(events, t), SearchEvents(events, s))
  {
    forall e | e in events && MatchesSearch(e, t)
      ensures MatchesSearch(e, s)
    {
      LongerTermMatchesLess(e, s, t);
    }
    FilterWeakerIsSuperseq((e: Event) => MatchesSearch(e, t), (e: Event) => MatchesSearch(e, s), events);
  }

  /** Searching for the lower-cased term gives the same results. */
  lemma SearchCaseInsensitive(events: seq<Event>, term: string)
    ensures SearchEvents(events, Lower(term)) == SearchEvents(events, term)
  {
    forall e | e in events
      ensures MatchesSearch(e, Lower(term)) <==> MatchesSearch(e, term)
    {
      TermCaseIrrelevant(e, term);
    }
    FilterCongruent((e: Event) => MatchesSearch(e, Lower(term)), (e: Event) => MatchesSearch(e, term), events);
  }

  /** The hint under "No events found": a non-empty term suggests adjusting it. */
  function EmptyHint(term: string): (h: string)
    ensures h == "Try adjusting your search terms" <==> term != []
    ensures h == "No events are currently available" <==> term == []
  {
    if term != [] then "Try adjusting your search terms" else "No events are currently available"
  }

  datatype EventsView = LoadingEvents | NoEventsFound(hint: string) | EventGrid(cards: seq<Event>)

  /** What the page shows for the fetched `events` and the current `term`. */
  function View(loading: bool, events: seq<Event>, term: string): (v: EventsView)
    ensures v.LoadingEvents? <==> loading
    ensures v.NoEventsFound? <==> !loading && SearchEvents(events, term) == []
    ensures v.NoEventsFound? ==> v.hint == EmptyHint(term)
    ensures v.EventGrid? ==> v.cards == SearchEvents(events, term) && v.cards != []
  {
    if loading then LoadingEvents
    else
      var found := SearchEvents(events, term);
      if found == [] then NoEventsFound(EmptyHint(term)) else EventGrid(found)
  }
}
