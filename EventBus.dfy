/** EventBus: an ordered list of filters in front of an event service; an event one filter
    rejects is returned without being dispatched. */
module EventBusModule {
  import opened Wrappers
  import opened Events
  import opened Listeners
  import opened EventService

  /** EventFilter.shouldFire, on what the event shows. */
  type EventFilter = EventView -> bool

  /** The position of the first filter that rejects v, or |filters| when all admit it: the
      filters are asked in order and the first refusal ends the walk. */
  function FirstRejecting(filters: seq<EventFilter>, v: EventView): (i: nat)
    ensures i <= |filters|
    ensures forall j :: 0 <= j < i ==> filters[j](v)
    ensures i < |filters| ==> !filters[i](v)
    decreases |filters|
  {
    if filters == [] then 0
    else if !filters[0](v) then 0
    else 1 + FirstRejecting(filters[1..], v)
  }

  /** A filter added later is asked only when every earlier one admitted the event. */
  lemma {:induction false} FirstRejectingSnoc(filters: seq<EventFilter>, f: EventFilter, v: EventView)
    ensures FirstRejecting(filters + [f], v) ==
      if FirstRejecting(filters, v) < |filters| then FirstRejecting(filters, v)
      else if f(v) then |filters| + 1 else |filters|
    decreases |filters|
  {
    var fs := filters + [f];
    if filters == [] {
      assert fs == [f];
    } else {
      assert fs[0] == filters[0] && fs[1..] == filters[1..] + [f];
      FirstRejectingSnoc(filters[1..], f, v);
    }
  }

  /** addFilter(Class, Predicate): the predicate decides for instances of the class; every
      other event is let through. */
  function TypedFilter(t: EventType, pred: EventView -> bool): (f: EventFilter)
    ensures forall v: EventView :: !AssignableFrom(t, v.cls) ==> f(v)
  {
    (v: EventView) => if AssignableFrom(t, v.cls) then pred(v) else true
  }

  /** A typed filter never stops an event of another type: adding one leaves the outcome for
      such events as it was. */
  lemma TypedFilterPassesOthers(filters: seq<EventFilter>, t: EventType, pred: EventView -> bool, v: EventView)
    requires !AssignableFrom(t, v.cls)
    ensures (FirstRejecting(filters + [TypedFilter(t, pred)], v) < |filters| + 1) <==>
            (FirstRejecting(filters, v) < |filters|)
  {
    FirstRejectingSnoc(filters, TypedFilter(t, pred), v);
  }

  /** On an instance of the class, a typed filter rejects exactly when the predicate does. */
  lemma TypedFilterDecidesInstances(t: EventType, pred: EventView -> bool, v: EventView)
    requires AssignableFrom(t, v.cls)
    ensures TypedFilter(t, pred)(v) == pred(v)
  {
  }

  class EventBus {
    const service: EventServiceImpl
    var filters: seq<EventFilter>

    constructor(service: EventServiceImpl)
      ensures this.service == service && filters == []
    {
      this.service := service;
      filters := [];
    }

    /** addFilter: the filter goes last. */
    method AddFilter(f: EventFilter)
      modifies this
      ensures filters == old(filters) + [f]
    {
      filters := filters + [f];
    }

    /** addFilter(Class, Predicate). */
    method AddTypedFilter(t: EventType, pred: EventView -> bool)
      modifies this
      ensures filters == old(filters) + [TypedFilter(t, pred)]
    {
      AddFilter(TypedFilter(t, pred));
    }

    /** fire: a rejected event comes back untouched and nothing is dispatched; an admitted one
        is handed to the service's fireEvent. */
    method Fire(e: Event, call: Invoker, order: seq<EventType>) returns (r: Event)
      requires EnumeratesKeys(order, service.listeners)
      modifies service, e
      ensures r == e
      ensures FirstRejecting(filters, old(e.View())) < |filters| ==>
        unchanged(e) && unchanged(service)
      ensures FirstRejecting(filters, old(e.View())) == |filters| ==>
        var ls := SortByPriority(Gathered(old(service.listeners), e.runtimeClass, order));
        var d := Deliver(ls, |ls|, old(e.View()), call);
        e.cancelled == d.cancelled && service.failures == old(service.failures) + d.failures
      ensures service.listeners == old(service.listeners)
      ensures service.listenersByObject == old(service.listenersByObject)
    {
      var i := 0;
      while i < |filters|
        invariant 0 <= i <= |filters|
        invariant forall j :: 0 <= j < i ==> filters[j](e.View())
      {
        if !filters[i](e.View()) {
          r := e;
          return;
        }
        i := i + 1;
      }
      r := service.FireEvent(e, call, order);
    }

    /** registerListener: delegated unchanged to the service. */
    method RegisterListener(obj: ListenerObject) returns (err: Option<string>)
      requires service.Valid()
      modifies service
      ensures service.Valid()
      ensures var en := EnrolMethods(old(service.listeners), obj, |obj.methods|);
        var recorded := en.error.None? && en.added != [];
        err == en.error &&
        service.listeners == (if recorded then SortAll(en.table) else en.table) &&
        service.listenersByObject ==
          (if recorded then old(service.listenersByObject)[obj.id := en.added] else old(service.listenersByObject))
      ensures service.failures == old(service.failures)
    {
      err := service.RegisterListener(obj);
    }
  }
}
