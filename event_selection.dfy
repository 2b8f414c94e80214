/** The event-selection form: its record of two event slots with partner
    choices, the field update that clears a slot's partner when its event
    changes, and the submit guard. */
module EventSelection {
  import opened Schema
  import EventSelector

  datatype Field = Event1 | Partner1 | Event2 | Partner2

  function Get(d: EventData, f: Field): string
  {
    match f
    case Event1 => d.event1
    case Partner1 => d.partner1
    case Event2 => d.event2
    case Partner2 => d.partner2
  }

  /** `{ ...d, [f]: v }` */
  function Set(d: EventData, f: Field, v: string): EventData
  {
    match f
    case Event1 => d.(event1 := v)
    case Partner1 => d.(partner1 := v)
    case Event2 => d.(event2 := v)
    case Partner2 => d.(partner2 := v)
  }

  /** The partner slot that changing field `f` resets, if any. */
  function ClearedBy(f: Field): Option<Field>
  {
    match f
    case Event1 => Some(Partner1)
    case Event2 => Some(Partner2)
    case _ => None
  }

  /** The record after `updateField(f, v)`: the value is stored, the partner of a
      changed event is reset to "", and every other field keeps its value. */
  function Updated(d: EventData, f: Field, v: string): (r: EventData)
    ensures Get(r, f) == v
    ensures ClearedBy(f).Some? ==> Get(r, ClearedBy(f).value) == ""
    ensures forall g :: g != f && ClearedBy(f) != Some(g) ==> Get(r, g) == Get(d, g)
  {
    var r := Set(d, f, v);
    if ClearedBy(f).Some? then Set(r, ClearedBy(f).value, "") else r
  }

  datatype Rejection = NoEventSelected | SameEventTwice

  /** What `handleSubmit` does: reject with a reason, or call `onSubmit` with the data. */
  datatype Decision = Rejected(reason: Rejection) | Submitted(data: EventData)

  /** The submit guard. */
  function Validate(d: EventData): (r: Decision)
    ensures r.Submitted? ==> r.data == d
    ensures r == Rejected(NoEventSelected) <==> d.event1 == "" && d.event2 == ""
    ensures r == Rejected(SameEventTwice) <==> d.event1 != "" && d.event1 == d.event2
    ensures r.Submitted? <==> (d.event1 != "" || d.event2 != "") && (d.event1 == "" || d.event1 != d.event2)
  {
    if d.event1 == "" && d.event2 == "" then Rejected(NoEventSelected)
    else if d.event1 == d.event2 && d.event1 != "" then Rejected(SameEventTwice)
    else Submitted(d)
  }

  /** A submission passes the guard with only the second slot filled. */
  lemma SecondSlotAloneSubmits(d: EventData)
    requires d.event1 == "" && d.event2 != ""
    ensures Validate(d) == Submitted(d)
  {
  }

  class EventSelectionForm {
    var eventData: EventData

    /** Mount: all four fields start empty, then provided initial data replaces
        the whole record. */
    constructor (initialData: Option<EventData>)
      ensures eventData == if initialData.Some? then initialData.value else EmptyEventData
    {
      eventData := EmptyEventData;
      new;
      LoadInitialData(initialData);
    }

    /** The effect on a change of `initialData`. */
    method LoadInitialData(initialData: Option<EventData>)
      modifies this
      ensures eventData == if initialData.Some? then initialData.value else old(eventData)
    {
      if initialData.Some? {
        eventData := initialData.value;
      }
    }

    /** `updateField`: two successive state updates, the value and then the
        partner reset. */
    method UpdateField(field: Field, value: string)
      modifies this
      ensures eventData == Updated(old(eventData), field, value)
    {
      eventData := Set(eventData, field, value);
      if field == Event1 {
        eventData := eventData.(partner1 := "");
      }
      if field == Event2 {
        eventData := eventData.(partner2 := "");
      }
    }

    /** `handleSubmit`: the state is not changed; `onSubmit` receives the
        record exactly when the guard passes. */
    method HandleSubmit() returns (decision: Decision)
      ensures decision.Submitted? <==>
        (eventData.event1 != "" || eventData.event2 != "") &&
        (eventData.event1 == "" || eventData.event1 != eventData.event2)
      ensures decision.Submitted? ==> decision.data == eventData
      ensures decision.Rejected? ==> decision == Validate(eventData)
    {
      if eventData.event1 == "" && eventData.event2 == "" {
        return Rejected(NoEventSelected);
      }
      if eventData.event1 == eventData.event2 && eventData.event1 != "" {
        return Rejected(SameEventTwice);
      }
      return Submitted(eventData);
    }

    /** The events offered in the second slot: the first slot's event is hidden. */
    function SecondSlotEvents(events: seq<EventRow>): (r: seq<EventRow>)
      reads this
      ensures eventData.event1 == "" ==> r == events
      ensures forall e :: e in r <==> e in events && (eventData.event1 == "" || e.eventName != eventData.event1)
    {
      EventSelector.FilteredEvents(events, Some(eventData.event1))
    }
  }
}
