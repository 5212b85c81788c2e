/**
  Event-list operations shared by the public, admin and organizer event
  pages: the case-insensitive search predicate and the list update after a
  successful delete.
 */
module EventLists {
  import opened Models
  import opened Lists
  import opened Text

  /** `s.toLowerCase().includes(term.toLowerCase())`, with ASCII folding. */
  predicate ContainsFolded(s: string, term: string): (b: bool)
    ensures b <==> exists i :: OccursAt(Lower(s), Lower(term), i)
    ensures b ==> |term| <= |s|
  {
    FoldedIncludesIff(s, term);
    Includes(Lower(s), Lower(term))
  }

  /** `IncludesIff` on the lower-cased string and term. */
  lemma FoldedIncludesIff(s: string, term: string)
    ensures Includes(Lower(s), Lower(term)) <==> exists i :: OccursAt(Lower(s), Lower(term), i)
  {
    IncludesIff(Lower(s), Lower(term));
  }

  /**
    The search predicate: the title contains the term, or the description is
    truthy (neither null nor empty) and contains it.
   */
  predicate MatchesSearch(e: Event, term: string): (b: bool)
    ensures ContainsFolded(e.title, term) ==> b
    ensures e.description.None? || e.description == Some([]) ==> (b <==> ContainsFolded(e.title, term))
    ensures b && !ContainsFolded(e.title, term) ==>
              e.description.Some? && exists i :: OccursAt(Lower(e.description.value), Lower(term), i)
    ensures e.description.Some? && e.description.value != [] ==>
              ((exists i :: OccursAt(Lower(e.description.value), Lower(term), i)) ==> b)
  {
    ContainsFolded(e.title, term)
    || (e.description.Some? && e.description.value != [] && ContainsFolded(e.description.value, term))
  }

  /** The empty term matches every event. */
  lemma EmptyTermMatches(e: Event)
    ensures MatchesSearch(e, [])
  {
  }

  /** An event without a description can only be found by its title. */
  lemma NullDescriptionMatchesByTitle(e: Event, term: string)
    requires e.description.None?
    ensures MatchesSearch(e, term) <==> ContainsFolded(e.title, term)
  {
  }

  /** Typing more characters can only lose matches: a match for `t` is a match for each prefix `s` of `t`. */
  lemma LongerTermMatchesLess(e: Event, s: string, t: string)
    requires s <= t
    requires MatchesSearch(e, t)
    ensures MatchesSearch(e, s)
  {
    LowerPrefix(s, t);
    if ContainsFolded(e.title, t) {
      IncludesPrefix(Lower(e.title), Lower(t), Lower(s));
    } else {
      IncludesPrefix(Lower(e.description.value), Lower(t), Lower(s));
    }
  }

  /** The case of the search term does not matter. */
  lemma TermCaseIrrelevant(e: Event, term: string)
    ensures MatchesSearch(e, Lower(term)) <==> MatchesSearch(e, term)
  {
    LowerIdempotent(term);
  }

  /** How many events carry id `id`. */
  function CountWithId(events: seq<Event>, id: int): nat
  {
    |Filter((e: Event) => e.id == id, events)|
  }

  /**
    `events.filter(e => e.id !== eventId)`: exactly the events with that id
    are removed; the others stay, in order, with their multiplicity.
   */
  function RemoveEvent(events: seq<Event>, id: int): (r: seq<Event>)
    ensures IsSubseq(r, events)
    ensures forall e :: e in r ==> e in events && e.id != id
    ensures forall e :: e in events && e.id != id ==> e in r
    ensures |r| + CountWithId(events, id) == |events|
    ensures forall e :: e in events ==> multiset(r)[e] == if e.id != id then multiset(events)[e] else 0
  {
    var keep := (e: Event) => e.id != id;
    FilterIsSubseq(keep, events);
    FilterPartition(keep, (e: Event) => e.id == id, events);
    Filter(keep, events)
  }
}
