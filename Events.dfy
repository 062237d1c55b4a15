/** The event base classes: AbstractEvent (a final name and timestamp), AbstractCancellableEvent
    (a mutable cancelled flag) and SimpleEvent with its CancellableSimpleEvent variant (a data
    field set by withData). One Dafny class stands for all four; runtimeClass says which. */
module Events {
  import opened Wrappers
  import opened JavaStrings

  /** The identity of an event class (its qualified name). */
  type EventType = string

  /** Any Java object, by identity; the data a SimpleEvent carries. */
  type ObjectRef = nat

  /** An event's runtime class: its identity, getSimpleName(), every other type it is
      assignable to (superclasses and interfaces), and whether it implements Cancellable. */
  datatype EventClass = EventClass(id: EventType, simpleName: string, supertypes: set<EventType>, cancellable: bool)

  /** Class.isAssignableFrom: a key matches an event of class cls. */
  predicate AssignableFrom(key: EventType, cls: EventClass) {
    key == cls.id || key in cls.supertypes
  }

  const EventInterface: EventType := "org.pistonworks.core.api.event.Event"
  const CancellableInterface: EventType := "org.pistonworks.core.api.event.Cancellable"
  const AbstractEventType: EventType := "org.pistonworks.core.common.event.AbstractEvent"
  const AbstractCancellableEventType: EventType := "org.pistonworks.core.common.event.AbstractCancellableEvent"

  const SimpleEventClass: EventClass :=
    EventClass("org.pistonworks.core.common.event.SimpleEvent", "SimpleEvent",
               {AbstractEventType, EventInterface}, false)

  const CancellableSimpleEventClass: EventClass :=
    EventClass("org.pistonworks.core.common.event.SimpleEvent$CancellableSimpleEvent", "CancellableSimpleEvent",
               {AbstractCancellableEventType, AbstractEventType, EventInterface, CancellableInterface}, true)

  /** What a listener or a filter can observe of an event. */
  datatype EventView = EventView(cls: EventClass, name: string, cancelled: bool, data: Option<ObjectRef>)

  // ---------------------------------------------------------------------------
  // toString
  // ---------------------------------------------------------------------------

  const TimestampField := "{timestamp="
  const CancelledField := ", cancelled="

  /** AbstractEvent.toString: "name{timestamp=N}". */
  function PlainText(name: string, timestamp: int): string {
    name + TimestampField + IntToString(timestamp) + "}"
  }

  /** AbstractCancellableEvent.toString: "name{timestamp=N, cancelled=b}". */
  function CancellableText(name: string, timestamp: int, cancelled: bool): string {
    name + TimestampField + IntToString(timestamp) + CancelledField + BoolToString(cancelled) + "}"
  }

  /** The plain text starts with the name, and the digits before the closing brace read back
      as the timestamp. */
  lemma PlainTextCarriesTimestamp(name: string, timestamp: int)
    requires LongMin <= timestamp <= LongMax
    ensures var t := PlainText(name, timestamp);
      StartsWith(t, name + TimestampField) && EndsWith(t, "}") &&
      ParseLong(t[|name + TimestampField|..|t| - 1]) == Some(timestamp)
  {
    var t := PlainText(name, timestamp);
    assert t == (name + TimestampField) + IntToString(timestamp) + "}";
    assert t[|name + TimestampField|..|t| - 1] == IntToString(timestamp);
    ParseDecimalOfIntToString(timestamp, LongMin, LongMax);
  }

  /** The cancellable text carries the name, the timestamp and the flag. */
  lemma CancellableTextCarriesState(name: string, timestamp: int, cancelled: bool)
    requires LongMin <= timestamp <= LongMax
    ensures var t := CancellableText(name, timestamp, cancelled);
      var digits := IntToString(timestamp);
      StartsWith(t, name + TimestampField) &&
      EndsWith(t, CancelledField + BoolToString(cancelled) + "}") &&
      ParseLong(t[|name + TimestampField|..|name + TimestampField| + |digits|]) == Some(timestamp)
  {
    var t := CancellableText(name, timestamp, cancelled);
    var head := name + TimestampField;
    var digits := IntToString(timestamp);
    var tail := CancelledField + BoolToString(cancelled) + "}";
    assert t == head + digits + tail;
    assert t[|head|..|head| + |digits|] == digits;
    assert t[|t| - |tail|..] == tail;
    ParseDecimalOfIntToString(timestamp, LongMin, LongMax);
  }

  // ---------------------------------------------------------------------------
  // The event object
  // ---------------------------------------------------------------------------

  class Event {
    /** getClass(). */
    const runtimeClass: EventClass
    /** AbstractEvent's private eventName field. */
    const baseName: string
    /** The eventName field SimpleEvent and CancellableSimpleEvent declare again, which their
        getEventName returns. */
    const ownName: Option<string>
    /** The clock reading taken by the constructor. */
    const timestamp: int
    var cancelled: bool
    var data: Option<ObjectRef>

    /** AbstractEvent() or AbstractCancellableEvent(): named by the simple class name. */
    constructor Unnamed(cls: EventClass, now: int)
      ensures runtimeClass == cls && EventName() == cls.simpleName && timestamp == now
      ensures baseName == cls.simpleName && ownName.None?
      ensures !cancelled && data.None?
    {
      runtimeClass := cls;
      baseName := cls.simpleName;
      ownName := None;
      timestamp := now;
      cancelled := false;
      data := None;
    }

    /** AbstractEvent(name) or AbstractCancellableEvent(name): the name is kept verbatim. */
    constructor Named(cls: EventClass, name: string, now: int)
      ensures runtimeClass == cls && EventName() == name && timestamp == now
      ensures baseName == name && ownName.None?
      ensures !cancelled && data.None?
    {
      runtimeClass := cls;
      baseName := name;
      ownName := None;
      timestamp := now;
      cancelled := false;
      data := None;
    }

    /** The private SimpleEvent(name): the implicit super() names the base field "SimpleEvent". */
    constructor Simple(name: string, now: int)
      ensures runtimeClass == SimpleEventClass && baseName == "SimpleEvent" && ownName == Some(name)
      ensures timestamp == now && !cancelled && data.None?
    {
      runtimeClass := SimpleEventClass;
      baseName := SimpleEventClass.simpleName;
      ownName := Some(name);
      timestamp := now;
      cancelled := false;
      data := None;
    }

    /** The private CancellableSimpleEvent(name, data). */
    constructor CancellableSimple(name: string, d: Option<ObjectRef>, now: int)
      ensures runtimeClass == CancellableSimpleEventClass && baseName == "CancellableSimpleEvent"
      ensures ownName == Some(name) && timestamp == now && !cancelled && data == d
    {
      runtimeClass := CancellableSimpleEventClass;
      baseName := CancellableSimpleEventClass.simpleName;
      ownName := Some(name);
      timestamp := now;
      cancelled := false;
      data := d;
    }

    /** getEventName: the subclass's own field where it declares one, else the base field. */
    function EventName(): string {
      if ownName.Some? then ownName.value else baseName
    }

    /** getTimestamp. */
    function Timestamp(): int {
      timestamp
    }

    /** isCancelled, on a Cancellable event. */
    function IsCancelled(): bool
      requires runtimeClass.cancellable
      reads this
    {
      cancelled
    }

    /** toString: AbstractCancellableEvent's form, which asks getEventName, or AbstractEvent's,
        which prints the base field. */
    function ToString(): string
      reads this
    {
      if runtimeClass.cancellable then CancellableText(EventName(), timestamp, cancelled)
      else PlainText(baseName, timestamp)
    }

    function View(): (v: EventView)
      reads this
      ensures v.cls == runtimeClass && v.name == EventName() && v.cancelled == cancelled && v.data == data
    {
      EventView(runtimeClass, EventName(), cancelled, data)
    }

    /** setCancelled: changes the flag and nothing else. */
    method SetCancelled(b: bool)
      requires runtimeClass.cancellable
      modifies this
      ensures IsCancelled() == b
      ensures data == old(data)
    {
      cancelled := b;
    }

    /** withData on a SimpleEvent or a CancellableSimpleEvent: sets the data, returns this. */
    method WithData(d: Option<ObjectRef>) returns (self: Event)
      requires runtimeClass == SimpleEventClass || runtimeClass == CancellableSimpleEventClass
      modifies this
      ensures self == this && data == d && cancelled == old(cancelled)
    {
      data := d;
      self := this;
    }

    /** getData: the last data set, None (null) before any. */
    function GetData(): Option<ObjectRef>
      reads this
    {
      data
    }

    /** cancellable(): a new, uncancelled event with the same name and data; this one is
        left as it was. */
    method Cancellable(now: int) returns (c: Event)
      requires runtimeClass == SimpleEventClass
      ensures fresh(c)
      ensures c.runtimeClass == CancellableSimpleEventClass && c.EventName() == EventName()
      ensures c.GetData() == GetData() && !c.IsCancelled() && c.Timestamp() == now
    {
      c := new Event.CancellableSimple(EventName(), data, now);
    }
  }

  /** SimpleEvent.create: an event named name, without data, whose toString shows the simple
      class name rather than the given name. */
  method Create(name: string, now: int) returns (e: Event)
    ensures fresh(e)
    ensures e.runtimeClass == SimpleEventClass && e.EventName() == name && e.Timestamp() == now
    ensures e.GetData().None? && !e.cancelled
    ensures e.ToString() == PlainText("SimpleEvent", now)
  {
    e := new Event.Simple(name, now);
  }
}
