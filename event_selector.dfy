/** The event picker's exclusion filter (`filteredEvents`): the second event
    slot hides the event chosen in the first. */
module EventSelector {
  import opened Schema
  import opened Seqs

  /** `excludeEvent` is an optional prop; `None` stands for `undefined`. */
  function FilteredEvents(events: seq<EventRow>, excludeEvent: Option<string>): (r: seq<EventRow>)
    ensures |r| <= |events|
    ensures forall e :: e in r ==> e in events
    ensures Truthy(excludeEvent) ==> forall e :: e in r ==> e.eventName != excludeEvent.value
    ensures !Truthy(excludeEvent) ==> r == events
  {
    if Truthy(excludeEvent) then Filter(events, (e: EventRow) => e.eventName != excludeEvent.value)
    else events
  }

  /** The number of events called `name`. */
  function CountNamed(events: seq<EventRow>, name: string): (n: nat)
    ensures n <= |events|
  {
    if events == [] then 0 else (if events[0].eventName == name then 1 else 0) + CountNamed(events[1..], name)
  }

  /** Without an exclusion (absent or empty) the list is returned unchanged. */
  lemma NoExclusionUnchanged(events: seq<EventRow>, excludeEvent: Option<string>)
    requires !Truthy(excludeEvent)
    ensures FilteredEvents(events, excludeEvent) == events
  {
  }

  /** With an exclusion, an event is listed exactly when it was offered and
      does not carry the excluded name. */
  lemma ExclusionMembership(events: seq<EventRow>, name: string, e: EventRow)
    requires name != ""
    ensures e in FilteredEvents(events, Some(name)) <==> e in events && e.eventName != name
  {
  }

  /** The kept events are in their original order. */
  lemma ExclusionKeepsOrder(events: seq<EventRow>, name: string)
    requires name != ""
    ensures IsSubsequence(FilteredEvents(events, Some(name)), events)
  {
    FilterIsSubsequence(events, (e: EventRow) => e.eventName != name);
  }

  /** Exactly the events with the excluded name are dropped. */
  lemma {:induction false} ExclusionLength(events: seq<EventRow>, name: string)
    requires name != ""
    ensures |FilteredEvents(events, Some(name))| == |events| - CountNamed(events, name)
  {
    if events != [] {
      ExclusionLength(events[1..], name);
    }
  }
}
