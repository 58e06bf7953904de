/**
 * The control events exchanged over the station's event channel
 * (src/hardware/events.rs). `RainCount` is included because the rain gauge's
 * interrupt sends it and the dispatch loop handles it.
 */
module Events {

  datatype EventType =
    | SensorRead
    | ButtonPress
    | ButtonRelease
    | UpdateData
    | ReceiveData
    | AnemometerCount
    | RainCount
    | Exit

  /** Every event type, once each. */
  const AllEventTypes: seq<EventType> :=
    [SensorRead, ButtonPress, ButtonRelease, UpdateData, ReceiveData, AnemometerCount, RainCount, Exit]

  /** The set of event types is closed: exactly the eight listed above. */
  lemma EventTypesClosed(t: EventType)
    ensures t in AllEventTypes
    ensures |AllEventTypes| == 8
    ensures forall i, j :: 0 <= i < j < |AllEventTypes| ==> AllEventTypes[i] != AllEventTypes[j]
  {
  }

  /** A payload-free tag. */
  datatype Event = Event(eventType: EventType)
  {
    function GetEventType(): EventType
    {
      eventType
    }
  }

  /** `Event::new`: the tag read back is the one the event was built with. */
  function NewEvent(t: EventType): (e: Event)
    ensures e.GetEventType() == t
  {
    Event(t)
  }
}
