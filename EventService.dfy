/** EventServiceImpl: the per-event-type listener lists and the per-object records, listener
    registration by annotated methods, unregistration, and synchronous dispatch in priority
    order with cancellation and per-listener exception isolation. */
module EventService {
  import opened Wrappers
  import opened JavaStrings
  import opened EventPriorities
  import opened Events
  import opened Listeners

  // ---------------------------------------------------------------------------
  // Listener objects as the service sees them
  // ---------------------------------------------------------------------------

  /** The @EventHandler annotation. */
  datatype HandlerSpec = HandlerSpec(priority: EventPriority, ignoreCancelled: bool)

  /** A declared parameter type, and whether Event is assignable from it. */
  datatype ParamType = ParamType(id: EventType, isEvent: bool)

  /** A public method of the listener's class, in getMethods() order. */
  datatype ListenerMethod = ListenerMethod(ref: MethodRef, annotation: Option<HandlerSpec>, params: seq<ParamType>)

  /** A listener object: its identity, its class's simple name and its public methods. */
  datatype ListenerObject = ListenerObject(id: ObjectRef, simpleName: string, methods: seq<ListenerMethod>)

  /** What one call of a listener did: the event's cancelled flag afterwards (for a
      Cancellable event) and the message of the exception it threw, if any. */
  datatype Reaction = Reaction(cancelled: bool, failure: Option<string>)

  /** Method.invoke of a record's method on its listener object, given what the event shows. */
  type Invoker = (RegisteredListener, EventView) -> Reaction

  /** One handleListenerException report: the listener, the event's name, the message. */
  datatype ListenerFailure = ListenerFailure(listener: RegisteredListener, eventName: string, message: string)

  type Table = map<EventType, seq<RegisteredListener>>

  /** The list under a key, empty when the key is absent. */
  function Lookup(table: Table, k: EventType): seq<RegisteredListener> {
    if k in table then table[k] else []
  }

  // ---------------------------------------------------------------------------
  // registerListener(Object), as a function of the listener table
  // ---------------------------------------------------------------------------

  /** The state registerListener has reached: the table, the records made so far, and the
      exception that stopped it, if any. */
  datatype Enrolment = Enrolment(table: Table, added: seq<RegisteredListener>, error: Option<string>)

  function ParameterCountMessage(obj: ListenerObject, m: ListenerMethod): string {
    "Event handler method " + obj.simpleName + "." + m.ref.name + " must have exactly one parameter"
  }

  function ParameterTypeMessage(obj: ListenerObject, m: ListenerMethod): string {
    "Event handler method " + obj.simpleName + "." + m.ref.name + " parameter must extend Event"
  }

  /** One turn of registerListener's loop: a method without @EventHandler is passed over; a
      well-formed one appends a record to its parameter type's list; a malformed one throws. */
  function EnrolMethod(prev: Enrolment, obj: ListenerObject, m: ListenerMethod): (r: Enrolment)
    ensures prev.error.Some? ==> r == prev
  {
    if prev.error.Some? || m.annotation.None? then prev
    else if |m.params| != 1 then prev.(error := Some(ParameterCountMessage(obj, m)))
    else if !m.params[0].isEvent then prev.(error := Some(ParameterTypeMessage(obj, m)))
    else
      var spec := m.annotation.value;
      var rl := NewRegisteredListener(obj.id, Some(m.ref), spec.priority, spec.ignoreCancelled).value;
      var k := m.params[0].id;
      Enrolment(prev.table[k := Lookup(prev.table, k) + [rl]], prev.added + [rl], None)
  }

  /** registerListener over the object's first n methods. */
  function EnrolMethods(table: Table, obj: ListenerObject, n: nat): Enrolment
    requires n <= |obj.methods|
  {
    if n == 0 then Enrolment(table, [], None)
    else EnrolMethod(EnrolMethods(table, obj, n - 1), obj, obj.methods[n - 1])
  }

  /** sortListeners: every list sorted by descending priority. */
  function SortAll(table: Table): (r: Table)
    ensures r.Keys == table.Keys
    ensures forall k :: k in r ==> r[k] == SortByPriority(table[k]) && Descending(r[k])
  {
    map k | k in table :: SortByPriority(table[k])
  }

  /** The records registerListener makes belong to the object, and each one is appended to the
      list of its method's parameter type; an error stops the walk and keeps what came before. */
  lemma {:induction false} EnrolmentFootprint(table: Table, obj: ListenerObject, n: nat)
    requires n <= |obj.methods|
    ensures var e := EnrolMethods(table, obj, n);
      (forall x :: x in e.added ==> x.listener == obj.id) &&
      (forall k :: k in table ==> k in e.table && table[k] <= e.table[k]) &&
      (forall k :: k in e.table ==> k in table || |e.table[k]| > 0)
    decreases n
  {
    if n > 0 {
      EnrolmentFootprint(table, obj, n - 1);
      var prev := EnrolMethods(table, obj, n - 1);
      assert EnrolMethods(table, obj, n) == EnrolMethod(prev, obj, obj.methods[n - 1]);
    }
  }

  /** Once a method throws, the later methods are not looked at. */
  lemma {:induction false} EnrolErrorStops(table: Table, obj: ListenerObject, i: nat, n: nat)
    requires i <= n <= |obj.methods|
    requires EnrolMethods(table, obj, i).error.Some?
    ensures EnrolMethods(table, obj, n) == EnrolMethods(table, obj, i)
    decreases n
  {
    if n > i {
      EnrolErrorStops(table, obj, i, n - 1);
      assert EnrolMethods(table, obj, n) == EnrolMethod(EnrolMethods(table, obj, n - 1), obj, obj.methods[n - 1]);
    }
  }

  /** A method with a parameter count other than one, or a parameter that is not an Event,
      throws IllegalArgumentException naming the class and the method. */
  lemma MalformedHandlerThrows(table: Table, obj: ListenerObject, i: nat)
    requires i < |obj.methods|
    requires EnrolMethods(table, obj, i).error.None?
    requires obj.methods[i].annotation.Some?
    ensures var m := obj.methods[i];
      var e := EnrolMethods(table, obj, |obj.methods|);
      (|m.params| != 1 ==> e.error == Some(ParameterCountMessage(obj, m))) &&
      (|m.params| == 1 && !m.params[0].isEvent ==> e.error == Some(ParameterTypeMessage(obj, m))) &&
      (|m.params| != 1 || !m.params[0].isEvent ==> e.table == EnrolMethods(table, obj, i).table)
  {
    var m := obj.methods[i];
    assert EnrolMethods(table, obj, i + 1) == EnrolMethod(EnrolMethods(table, obj, i), obj, m);
    if |m.params| != 1 || !m.params[0].isEvent {
      EnrolErrorStops(table, obj, i + 1, |obj.methods|);
    }
  }

  // ---------------------------------------------------------------------------
  // unregisterListener, as a function of the listener table
  // ---------------------------------------------------------------------------

  /** The inner loop: remove x (its first equal) from every list. */
  function RemoveFromAll(table: Table, x: RegisteredListener): (r: Table)
    ensures r.Keys == table.Keys
    ensures forall k :: k in r ==> r[k] == RemoveFirst(table[k], x)
  {
    map k | k in table :: RemoveFirst(table[k], x)
  }

  /** The outer loop: each recorded listener in turn. */
  function RemoveEach(table: Table, rls: seq<RegisteredListener>): (r: Table)
    ensures r.Keys == table.Keys
    decreases |rls|
  {
    if rls == [] then table else RemoveFromAll(RemoveEach(table, rls[..|rls| - 1]), rls[|rls| - 1])
  }

  /** Removal never touches the listeners of other objects, keeps every list's order, and
      takes out no more than one element per recorded listener from each list. */
  lemma {:induction false} RemoveEachSpares(table: Table, rls: seq<RegisteredListener>, o: ObjectRef)
    requires forall i :: 0 <= i < |rls| ==> rls[i].listener != o
    ensures var r := RemoveEach(table, rls);
      forall k :: k in table ==> OfObject(r[k], o) == OfObject(table[k], o) && |table[k]| - |rls| <= |r[k]| <= |table[k]|
    decreases |rls|
  {
    if rls != [] {
      var init := rls[..|rls| - 1];
      var x := rls[|rls| - 1];
      RemoveEachSpares(table, init, o);
      var mid := RemoveEach(table, init);
      forall k | k in table
        ensures OfObject(RemoveFirst(mid[k], x), o) == OfObject(mid[k], o)
        ensures |mid[k]| - 1 <= |RemoveFirst(mid[k], x)| <= |mid[k]|
      {
        RemoveFirstSpares(mid[k], x, o);
      }
    }
  }

  /** Removing from a list in descending order leaves it in descending order. */
  lemma RemoveFirstKeepsOrder(s: seq<RegisteredListener>, x: RegisteredListener)
    requires Descending(s)
    ensures Descending(RemoveFirst(s, x))
  {
    var i := FirstEqual(s, x);
    if i < |s| {
      var r := RemoveFirst(s, x);
      forall a, b | 0 <= a < b < |r| ensures r[a].priority.Value() >= r[b].priority.Value() {
        var a', b' := if a < i then a else a + 1, if b < i then b else b + 1;
        assert r[a] == s[a'] && r[b] == s[b'];
      }
    }
  }

  // ---------------------------------------------------------------------------
  // Registering, then unregistering, one object
  // ---------------------------------------------------------------------------

  /** getMethods() lists each method once. */
  predicate DistinctMethods(obj: ListenerObject) {
    forall i, j :: 0 <= i < j < |obj.methods| ==> obj.methods[i].ref != obj.methods[j].ref
  }

  /** What unregistration needs to clear an object o from the table: its records rls belong to
      it and no two are equal, every listener of o in a list is one of them, and no list holds
      the same one twice. */
  ghost predicate Removable(table: Table, rls: seq<RegisteredListener>, o: ObjectRef) {
    (forall i :: 0 <= i < |rls| ==> rls[i].listener == o) &&
    (forall i, j :: 0 <= i < j < |rls| ==> !ListenerEquals(rls[i], rls[j])) &&
    (forall k, y :: k in table && y in table[k] && y.listener == o ==> y in rls) &&
    (forall k, y: RegisteredListener :: k in table && y.listener == o ==> multiset(table[k])[y] <= 1)
  }

  /** The outer removal loop, seen from its first turn. */
  lemma {:induction false} RemoveEachCons(table: Table, x: RegisteredListener, rest: seq<RegisteredListener>)
    ensures RemoveEach(table, [x] + rest) == RemoveEach(RemoveFromAll(table, x), rest)
    decreases |rest|
  {
    var all := [x] + rest;
    if rest == [] {
      assert all[..0] == [];
    } else {
      var init := rest[..|rest| - 1];
      var last := rest[|rest| - 1];
      assert all[..|all| - 1] == [x] + init && all[|all| - 1] == last;
      calc {
        RemoveEach(table, all);
        RemoveFromAll(RemoveEach(table, [x] + init), last);
        { RemoveEachCons(table, x, init); }
        RemoveFromAll(RemoveEach(RemoveFromAll(table, x), init), last);
        RemoveEach(RemoveFromAll(table, x), rest);
      }
    }
  }

  /** A list holding no listener of o has none to show. */
  lemma {:induction false} OfObjectNone(s: seq<RegisteredListener>, o: ObjectRef)
    requires forall y :: y in s ==> y.listener != o
    ensures OfObject(s, o) == []
    decreases |s|
  {
    if s != [] {
      assert s[0] in s;
      OfObjectNone(s[1..], o);
    }
  }

  /** list.remove(x) on a list that holds x at most once and no other equal of x: x is gone. */
  lemma RemoveFirstOnlyCopy(s: seq<RegisteredListener>, x: RegisteredListener)
    requires multiset(s)[x] <= 1
    requires forall y :: y in s && ListenerEquals(x, y) ==> y == x
    ensures x !in RemoveFirst(s, x)
    ensures multiset(RemoveFirst(s, x)) <= multiset(s)
  {
    var i := FirstEqual(s, x);
    if i < |s| {
      assert s == s[..i] + [s[i]] + s[i + 1..];
      assert multiset(s) == multiset(RemoveFirst(s, x)) + multiset{x};
    }
  }

  /** One turn of the outer removal loop on one list: rls[0] is gone, nothing is added, and
      the listeners of o left are among the records still to go. */
  lemma RemovableListStep(s: seq<RegisteredListener>, rls: seq<RegisteredListener>, o: ObjectRef)
    requires rls != []
    requires forall i :: 0 <= i < |rls| ==> rls[i].listener == o
    requires forall i, j :: 0 <= i < j < |rls| ==> !ListenerEquals(rls[i], rls[j])
    requires forall y :: y in s && y.listener == o ==> y in rls
    requires forall y: RegisteredListener :: y.listener == o ==> multiset(s)[y] <= 1
    ensures var r := RemoveFirst(s, rls[0]);
      multiset(r) <= multiset(s) && forall y :: y in r && y.listener == o ==> y in rls[1..]
  {
    var x := rls[0];
    assert rls == [x] + rls[1..];
    forall y | y in s && ListenerEquals(x, y) ensures y == x {
      assert y in rls;
    }
    RemoveFirstOnlyCopy(s, x);
    var r := RemoveFirst(s, x);
    forall y | y in r && y.listener == o ensures y in rls[1..] {
      assert multiset(s)[y] >= multiset(r)[y] > 0;
    }
  }

  /** One turn of the outer removal loop keeps Removable for the records still to go. */
  lemma RemovableStep(table: Table, rls: seq<RegisteredListener>, o: ObjectRef)
    requires rls != [] && Removable(table, rls, o)
    ensures Removable(RemoveFromAll(table, rls[0]), rls[1..], o)
  {
    var r := RemoveFromAll(table, rls[0]);
    forall k | k in table
      ensures multiset(r[k]) <= multiset(table[k])
      ensures forall y: RegisteredListener :: y in r[k] && y.listener == o ==> y in rls[1..]
    {
      RemovableListStep(table[k], rls, o);
    }
  }

  /** Removing the records of a Removable object leaves none of its listeners. */
  lemma {:induction false} RemoveEachClears(table: Table, rls: seq<RegisteredListener>, o: ObjectRef)
    requires Removable(table, rls, o)
    ensures forall k :: k in table ==> OfObject(RemoveEach(table, rls)[k], o) == []
    decreases |rls|
  {
    if rls == [] {
      forall k | k in table ensures OfObject(table[k], o) == [] {
        OfObjectNone(table[k], o);
      }
    } else {
      RemovableStep(table, rls, o);
      RemoveEachClears(RemoveFromAll(table, rls[0]), rls[1..], o);
      RemoveEachCons(table, rls[0], rls[1..]);
      assert [rls[0]] + rls[1..] == rls;
    }
  }

  /** Registration from a table holding none of the object's listeners makes the table
      Removable by the records it makes, each record made from one of the first n methods. */
  lemma {:induction false} EnrolmentRemovable(table: Table, obj: ListenerObject, n: nat)
    requires n <= |obj.methods| && DistinctMethods(obj)
    requires forall k :: k in table ==> OfObject(table[k], obj.id) == []
    ensures var e := EnrolMethods(table, obj, n);
      Removable(e.table, e.added, obj.id) &&
      forall x :: x in e.added ==> exists j :: 0 <= j < n && x.handlerMethod == obj.methods[j].ref
    decreases n
  {
    if n > 0 {
      EnrolmentRemovable(table, obj, n - 1);
      var prev := EnrolMethods(table, obj, n - 1);
      var m := obj.methods[n - 1];
      assert EnrolMethods(table, obj, n) == EnrolMethod(prev, obj, m);
      if prev.error.None? && m.annotation.Some? && |m.params| == 1 && m.params[0].isEvent {
        EnrolStep(prev, obj, n);
      }
    } else {
      forall k, y: RegisteredListener | k in table && y.listener == obj.id ensures multiset(table[k])[y] == 0 {
        assert y !in OfObject(table[k], obj.id);
      }
    }
  }

  /** The appending turn of EnrolmentRemovable. */
  lemma EnrolStep(prev: Enrolment, obj: ListenerObject, n: nat)
    requires 0 < n <= |obj.methods| && DistinctMethods(obj)
    requires prev.error.None? && Removable(prev.table, prev.added, obj.id)
    requires forall x :: x in prev.added ==> exists j :: 0 <= j < n - 1 && x.handlerMethod == obj.methods[j].ref
    requires var m := obj.methods[n - 1]; m.annotation.Some? && |m.params| == 1 && m.params[0].isEvent
    ensures var e := EnrolMethod(prev, obj, obj.methods[n - 1]);
      Removable(e.table, e.added, obj.id) &&
      forall x :: x in e.added ==> exists j :: 0 <= j < n && x.handlerMethod == obj.methods[j].ref
  {
    var m := obj.methods[n - 1];
    var rl := RegisteredListener(obj.id, m.ref, m.annotation.value.priority, m.annotation.value.ignoreCancelled);
    var k0 := m.params[0].id;
    var e := EnrolMethod(prev, obj, m);
    assert e.added == prev.added + [rl];
    assert e.table == prev.table[k0 := Lookup(prev.table, k0) + [rl]];
    forall x | x in prev.added ensures !ListenerEquals(x, rl) {
      var j :| 0 <= j < n - 1 && x.handlerMethod == obj.methods[j].ref;
    }
    assert rl !in Lookup(prev.table, k0);
    forall x | x in e.added ensures exists j :: 0 <= j < n && x.handlerMethod == obj.methods[j].ref {
      if x == rl {
        assert x.handlerMethod == obj.methods[n - 1].ref;
      }
    }
    forall i, j | 0 <= i < j < |e.added| ensures !ListenerEquals(e.added[i], e.added[j]) {
      if j == |prev.added| {
        assert e.added[i] in prev.added;
      }
    }
  }

  /** Sorting keeps Removable. */
  lemma SortAllRemovable(table: Table, rls: seq<RegisteredListener>, o: ObjectRef)
    requires Removable(table, rls, o)
    ensures Removable(SortAll(table), rls, o)
  {
    var sorted := SortAll(table);
    forall k, y | k in sorted && y in sorted[k] ensures y in table[k] {
      assert multiset(sorted[k])[y] > 0;
    }
  }

  /** unregisterListener undoes registerListener: an object with distinct methods registered
      into a table holding none of its listeners, then unregistered, leaves none of its
      listeners in any list. */
  lemma RegisterThenUnregisterClears(table: Table, obj: ListenerObject)
    requires DistinctMethods(obj)
    requires forall k :: k in table ==> OfObject(table[k], obj.id) == []
    requires EnrolMethods(table, obj, |obj.methods|).error.None?
    ensures var e := EnrolMethods(table, obj, |obj.methods|);
      var registered := if e.added != [] then SortAll(e.table) else e.table;
      var after := RemoveEach(registered, e.added);
      after.Keys == registered.Keys && forall k :: k in after ==> OfObject(after[k], obj.id) == []
  {
    var e := EnrolMethods(table, obj, |obj.methods|);
    EnrolmentRemovable(table, obj, |obj.methods|);
    if e.added != [] {
      SortAllRemovable(e.table, e.added, obj.id);
      RemoveEachClears(SortAll(e.table), e.added, obj.id);
    } else {
      RemoveEachClears(e.table, e.added, obj.id);
    }
  }

  /** A table whose lists are all in order is left as it is by sortListeners. */
  lemma SortAllOfDescending(table: Table)
    requires forall k :: k in table ==> Descending(table[k])
    ensures SortAll(table) == table
  {
    forall k | k in table ensures SortByPriority(table[k]) == table[k] {
      SortOfDescending(table[k]);
    }
  }

  /** A table of one sorted list is left as it is by the sort. */
  lemma SortAllOne(k: EventType, s: seq<RegisteredListener>)
    requires Descending(s)
    ensures SortAll(map[k := s]) == map[k := s]
  {
    SortAllOfDescending(map[k := s]);
  }

  /** Two copies of one record are in descending order. */
  lemma TwoCopiesDescending(x: RegisteredListener)
    ensures Descending([x, x])
  {
    forall i, j | 0 <= i < j < 2 ensures [x, x][i] == [x, x][j] {
    }
  }

  /** An object with one well-formed handler method appends one record to its type's list. */
  lemma EnrolSingle(table: Table, obj: ListenerObject)
    requires |obj.methods| == 1
    requires var m := obj.methods[0]; m.annotation.Some? && |m.params| == 1 && m.params[0].isEvent
    ensures var m := obj.methods[0];
      var k := m.params[0].id;
      var rl := RegisteredListener(obj.id, m.ref, m.annotation.value.priority, m.annotation.value.ignoreCancelled);
      EnrolMethods(table, obj, 1) == Enrolment(table[k := Lookup(table, k) + [rl]], [rl], None)
  {
    assert EnrolMethods(table, obj, 0) == Enrolment(table, [], None);
  }

  /** Removing a listener once from a list holding it twice leaves one copy. */
  lemma RemoveOneOfTwo(k: EventType, rl: RegisteredListener)
    ensures RemoveEach(map[k := [rl, rl]], [rl]) == map[k := [rl]]
  {
    assert [rl][..0] == [];
    assert RemoveFirst([rl, rl], rl) == [rl];
  }

  /** The listener record an object with one well-formed handler method gets. */
  function SoleRecord(obj: ListenerObject): RegisteredListener
    requires |obj.methods| == 1 && obj.methods[0].annotation.Some?
  {
    var m := obj.methods[0];
    RegisteredListener(obj.id, m.ref, m.annotation.value.priority, m.annotation.value.ignoreCancelled)
  }

  /** The first registration of an object with one handler method, into an empty table. */
  lemma RegisterIntoEmpty(obj: ListenerObject)
    requires |obj.methods| == 1
    requires var m := obj.methods[0]; m.annotation.Some? && |m.params| == 1 && m.params[0].isEvent
    ensures var e := EnrolMethods(map[], obj, 1);
      e.error.None? && e.added == [SoleRecord(obj)] &&
      SortAll(e.table) == map[obj.methods[0].params[0].id := [SoleRecord(obj)]]
  {
    var k := obj.methods[0].params[0].id;
    var rl := SoleRecord(obj);
    assert EnrolMethods(map[], obj, 1) == Enrolment(map[k := [rl]], [rl], None) by {
      EnrolSingle(map[], obj);
      assert Lookup(map[], k) + [rl] == [rl];
    }
    assert SortAll(map[k := [rl]]) == map[k := [rl]] by {
      SortAllOfDescending(map[k := [rl]]);
    }
  }

  /** The second registration of that object, into the table the first one left, appends a
      second copy of its record. */
  lemma RegisterAgain(obj: ListenerObject, table: Table)
    requires |obj.methods| == 1
    requires var m := obj.methods[0]; m.annotation.Some? && |m.params| == 1 && m.params[0].isEvent
    requires table == map[obj.methods[0].params[0].id := [SoleRecord(obj)]]
    ensures EnrolMethods(table, obj, 1) ==
      Enrolment(map[obj.methods[0].params[0].id := [SoleRecord(obj), SoleRecord(obj)]], [SoleRecord(obj)], None)
  {
    var k := obj.methods[0].params[0].id;
    var rl := SoleRecord(obj);
    EnrolSingle(table, obj);
    assert Lookup(table, k) + [rl] == [rl, rl];
  }

  /** Registering the same object twice replaces its record, while both copies stay in the
      list, so unregistering it once leaves one copy of its listener behind. */
  lemma DoubleRegistrationLeavesCopy(obj: ListenerObject)
    requires |obj.methods| == 1
    requires var m := obj.methods[0]; m.annotation.Some? && |m.params| == 1 && m.params[0].isEvent
    ensures var k := obj.methods[0].params[0].id;
      var rl := SoleRecord(obj);
      var once := SortAll(EnrolMethods(map[], obj, 1).table);
      var second := EnrolMethods(once, obj, 1);
      var twice := SortAll(second.table);
      twice == map[k := [rl, rl]] && RemoveEach(twice, second.added) == map[k := [rl]]
  {
    var k := obj.methods[0].params[0].id;
    var rl := SoleRecord(obj);
    RegisterIntoEmpty(obj);
    RegisterAgain(obj, map[k := [rl]]);
    TwoCopiesDescending(rl);
    SortAllOne(k, [rl, rl]);
    RemoveOneOfTwo(k, rl);
  }

  // ---------------------------------------------------------------------------
  // getListenersForEvent
  // ---------------------------------------------------------------------------

  /** order lists every key of the table once: the iteration order of the map's entries. */
  ghost predicate EnumeratesKeys(order: seq<EventType>, table: Table) {
    (forall k :: k in order <==> k in table) &&
    (forall i, j :: 0 <= i < j < |order| ==> order[i] != order[j])
  }

  /** A key that names a strict supertype of the event's class. */
  predicate StrictSuper(k: EventType, cls: EventClass) {
    AssignableFrom(k, cls) && k != cls.id
  }

  /** The lists of the strict-supertype keys among keys, in order. */
  function Supers(table: Table, cls: EventClass, keys: seq<EventType>): seq<RegisteredListener>
    decreases |keys|
  {
    if keys == [] then []
    else
      var k := keys[|keys| - 1];
      Supers(table, cls, keys[..|keys| - 1]) + (if StrictSuper(k, cls) then Lookup(table, k) else [])
  }

  /** Direct listeners first, then the supertype lists in entry order, before the sort. */
  function Gathered(table: Table, cls: EventClass, order: seq<EventType>): seq<RegisteredListener> {
    Lookup(table, cls.id) + Supers(table, cls, order)
  }

  lemma {:induction false} SupersMembers(table: Table, cls: EventClass, keys: seq<EventType>, y: RegisteredListener)
    ensures y in Supers(table, cls, keys) <==> exists k :: k in keys && StrictSuper(k, cls) && y in Lookup(table, k)
    decreases |keys|
  {
    if keys != [] {
      var init, last := keys[..|keys| - 1], keys[|keys| - 1];
      SupersMembers(table, cls, init, y);
      assert keys == init + [last];
      if y in Supers(table, cls, keys) && y !in Supers(table, cls, init) {
        assert StrictSuper(last, cls) && y in Lookup(table, last);
      }
      if exists k :: k in keys && StrictSuper(k, cls) && y in Lookup(table, k) {
        var k :| k in keys && StrictSuper(k, cls) && y in Lookup(table, k);
        if k != last {
          assert k in init;
        }
      }
    }
  }

  /** The listeners fireEvent visits are exactly those of every key the event's class is
      assignable to, its own class included. */
  lemma GatheredMembers(table: Table, cls: EventClass, order: seq<EventType>, y: RegisteredListener)
    requires EnumeratesKeys(order, table)
    ensures y in SortByPriority(Gathered(table, cls, order)) <==>
      exists k :: k in table && AssignableFrom(k, cls) && y in table[k]
  {
    var g := Gathered(table, cls, order);
    assert y in SortByPriority(g) <==> y in g by {
      assert multiset(SortByPriority(g)) == multiset(g);
      assert y in SortByPriority(g) <==> y in multiset(SortByPriority(g));
    }
    SupersMembers(table, cls, order, y);
  }

  lemma {:induction false} AtPriorityAppend(a: seq<RegisteredListener>, b: seq<RegisteredListener>, p: EventPriority)
    ensures AtPriority(a + b, p) == AtPriority(a, p) + AtPriority(b, p)
    decreases |a|
  {
    if a == [] {
      assert a + b == b;
    } else {
      assert (a + b)[0] == a[0] && (a + b)[1..] == a[1..] + b;
      AtPriorityAppend(a[1..], b, p);
    }
  }

  /** Visiting order: non-increasing priority, and among listeners of one priority, the
      event's own type's list (in its order) before the supertype lists. */
  lemma DispatchOrder(table: Table, cls: EventClass, order: seq<EventType>, p: EventPriority)
    ensures var r := SortByPriority(Gathered(table, cls, order));
      Descending(r) &&
      AtPriority(r, p) == AtPriority(Lookup(table, cls.id), p) + AtPriority(Supers(table, cls, order), p)
  {
    SortIsStable(Gathered(table, cls, order), p);
    AtPriorityAppend(Lookup(table, cls.id), Supers(table, cls, order), p);
  }

  // ---------------------------------------------------------------------------
  // fireEvent's loop, as a function of the visited list
  // ---------------------------------------------------------------------------

  /** The event's state after a prefix of the visit: its flag, the positions whose listener
      was called, and the reports made. */
  datatype Delivery = Delivery(cancelled: bool, called: seq<nat>, failures: seq<ListenerFailure>)

  /** The skip test: a Cancellable event, cancelled now, and a listener with ignoreCancelled. */
  predicate Skips(cls: EventClass, cancelled: bool, l: RegisteredListener) {
    cls.cancellable && cancelled && l.ignoreCancelled
  }

  /** The first n listeners of ls visited, starting from the event state view. */
  function Deliver(ls: seq<RegisteredListener>, n: nat, view: EventView, call: Invoker): (d: Delivery)
    requires n <= |ls|
    ensures forall i :: 0 <= i < |d.called| ==> d.called[i] < n
  {
    if n == 0 then Delivery(view.cancelled, [], [])
    else
      var d := Deliver(ls, n - 1, view, call);
      var l := ls[n - 1];
      if Skips(view.cls, d.cancelled, l) then d
      else
        var re := call(l, view.(cancelled := d.cancelled));
        Delivery(if view.cls.cancellable then re.cancelled else d.cancelled,
                 d.called + [n - 1],
                 d.failures + if re.failure.Some? then [ListenerFailure(l, view.name, re.failure.value)] else [])
  }

  /** The check is made again before every listener, with the flag as the earlier listeners
      left it: position i is called iff it is not skipped at that moment. */
  lemma {:induction false} CalledIffNotSkipped(ls: seq<RegisteredListener>, n: nat, view: EventView, call: Invoker, i: nat)
    requires i < n <= |ls|
    ensures i in Deliver(ls, n, view, call).called <==>
      !Skips(view.cls, Deliver(ls, i, view, call).cancelled, ls[i])
    decreases n
  {
    var d := Deliver(ls, n - 1, view, call);
    if i < n - 1 {
      CalledIffNotSkipped(ls, n - 1, view, call, i);
      assert i != n - 1;
    } else {
      assert forall j :: 0 <= j < |d.called| ==> d.called[j] != n - 1;
    }
  }

  /** Without ignoreCancelled a listener is always called; for an event that is not
      Cancellable every listener is called, in order. */
  lemma {:induction false} NonCancellableReachesAll(ls: seq<RegisteredListener>, n: nat, view: EventView, call: Invoker)
    requires n <= |ls|
    requires !view.cls.cancellable
    ensures Deliver(ls, n, view, call).called == seq(n, i => i)
    ensures Deliver(ls, n, view, call).cancelled == view.cancelled
    decreases n
  {
    if n > 0 {
      NonCancellableReachesAll(ls, n - 1, view, call);
      assert seq(n, i => i) == seq(n - 1, i => i) + [n - 1];
    }
  }

  lemma NotIgnoringAlwaysCalled(ls: seq<RegisteredListener>, n: nat, view: EventView, call: Invoker, i: nat)
    requires i < n <= |ls| && !ls[i].ignoreCancelled
    ensures i in Deliver(ls, n, view, call).called
  {
    CalledIffNotSkipped(ls, n, view, call, i);
  }

  /** Exceptions are isolated: what a listener throws changes the reports and nothing else;
      the same listeners are called and the flag ends the same as if none had thrown. */
  lemma {:induction false} FailuresIsolated(ls: seq<RegisteredListener>, n: nat, view: EventView, call: Invoker, quiet: Invoker)
    requires n <= |ls|
    requires forall l, v :: quiet(l, v) == call(l, v).(failure := None)
    ensures var d, q := Deliver(ls, n, view, call), Deliver(ls, n, view, quiet);
      d.called == q.called && d.cancelled == q.cancelled && q.failures == []
    ensures |Deliver(ls, n, view, call).failures| <= |Deliver(ls, n, view, call).called|
    decreases n
  {
    if n > 0 {
      FailuresIsolated(ls, n - 1, view, call, quiet);
    }
  }

  // ---------------------------------------------------------------------------
  // The service object
  // ---------------------------------------------------------------------------

  class EventServiceImpl {
    var listeners: Table
    var listenersByObject: map<ObjectRef, seq<RegisteredListener>>
    /** What handleListenerException reported, in order. */
    var failures: seq<ListenerFailure>

    /** Every record kept for an object belongs to that object. */
    ghost predicate Valid()
      reads this
    {
      forall o, x :: o in listenersByObject && x in listenersByObject[o] ==> x.listener == o
    }

    constructor()
      ensures Valid()
      ensures listeners == map[] && listenersByObject == map[] && failures == []
    {
      listeners := map[];
      listenersByObject := map[];
      failures := [];
    }

    /** Applies f to every list, key by key, as sortListeners and the removal loop do. */
    method ForEachList(f: seq<RegisteredListener> -> seq<RegisteredListener>)
      modifies this
      ensures listeners == map k | k in old(listeners) :: f(old(listeners)[k])
      ensures listenersByObject == old(listenersByObject) && failures == old(failures)
    {
      var keys := listeners.Keys;
      while keys != {}
        invariant keys <= listeners.Keys == old(listeners).Keys
        invariant forall k :: k in listeners ==> listeners[k] == if k in keys then old(listeners)[k] else f(old(listeners)[k])
        invariant listenersByObject == old(listenersByObject) && failures == old(failures)
        decreases |keys|
      {
        var k :| k in keys;
        listeners := listeners[k := f(listeners[k])];
        keys := keys - {k};
      }
    }

    /** sortListeners. */
    method SortListeners()
      modifies this
      ensures listeners == SortAll(old(listeners))
      ensures listenersByObject == old(listenersByObject) && failures == old(failures)
    {
      ForEachList(SortByPriority);
    }

    /** registerListener(Object): appends a record per well-formed @EventHandler method to the
        list of its parameter type; then, if any were made, records them for the object and
        sorts every list. An exception leaves earlier records in their lists, unsorted. */
    method RegisterListener(obj: ListenerObject) returns (err: Option<string>)
      requires Valid()
      modifies this
      ensures Valid()
      ensures var e := EnrolMethods(old(listeners), obj, |obj.methods|);
        var recorded := e.error.None? && e.added != [];
        err == e.error &&
        listeners == (if recorded then SortAll(e.table) else e.table) &&
        listenersByObject == (if recorded then old(listenersByObject)[obj.id := e.added] else old(listenersByObject))
      ensures failures == old(failures)
    {
      EnrolmentFootprint(old(listeners), obj, |obj.methods|);
      var made: seq<RegisteredListener> := [];
      var i := 0;
      while i < |obj.methods|
        invariant 0 <= i <= |obj.methods|
        invariant EnrolMethods(old(listeners), obj, i) == Enrolment(listeners, made, None)
        invariant listenersByObject == old(listenersByObject) && failures == old(failures)
      {
        var m := obj.methods[i];
        assert EnrolMethods(old(listeners), obj, i + 1) == EnrolMethod(EnrolMethods(old(listeners), obj, i), obj, m);
        if m.annotation.Some? {
          if |m.params| != 1 {
            err := Some(ParameterCountMessage(obj, m));
            EnrolErrorStops(old(listeners), obj, i + 1, |obj.methods|);
            return;
          }
          if !m.params[0].isEvent {
            err := Some(ParameterTypeMessage(obj, m));
            EnrolErrorStops(old(listeners), obj, i + 1, |obj.methods|);
            return;
          }
          var spec := m.annotation.value;
          var rl := NewRegisteredListener(obj.id, Some(m.ref), spec.priority, spec.ignoreCancelled).value;
          made := made + [rl];
          var k := m.params[0].id;
          listeners := listeners[k := Lookup(listeners, k) + [rl]];
        }
        i := i + 1;
      }
      err := None;
      if made != [] {
        listenersByObject := listenersByObject[obj.id := made];
        SortListeners();
      }
    }

    /** unregisterListener: drops the object's record, then removes each recorded listener
        (its first equal) from every list; an unknown object changes nothing. */
    method UnregisterListener(o: ObjectRef)
      requires Valid()
      modifies this
      ensures Valid()
      ensures listenersByObject == old(listenersByObject) - {o}
      ensures listeners == if o in old(listenersByObject) then RemoveEach(old(listeners), old(listenersByObject)[o])
                           else old(listeners)
      ensures failures == old(failures)
    {
      var recorded := if o in listenersByObject then Some(listenersByObject[o]) else None;
      listenersByObject := listenersByObject - {o};
      if recorded.Some? {
        var rls := recorded.value;
        var i := 0;
        while i < |rls|
          invariant 0 <= i <= |rls|
          invariant listeners == RemoveEach(old(listeners), rls[..i])
          invariant listenersByObject == old(listenersByObject) - {o} && failures == old(failures)
        {
          ghost var before := listeners;
          RemoveFromEveryList(rls[i]);
          assert rls[..i + 1][..i] == rls[..i];
          assert RemoveEach(old(listeners), rls[..i + 1]) == RemoveFromAll(before, rls[i]);
          i := i + 1;
        }
        assert rls[..i] == rls;
      }
    }

    /** The inner loop of unregisterListener: list.remove(x) on every list. */
    method RemoveFromEveryList(x: RegisteredListener)
      modifies this
      ensures listeners == RemoveFromAll(old(listeners), x)
      ensures listenersByObject == old(listenersByObject) && failures == old(failures)
    {
      ForEachList(s => RemoveFirst(s, x));
    }

    /** registerListener(type, listener): the wrapper's constructor throws before the table is
        touched, so every call fails and nothing changes. */
    method RegisterFunctionalListener(eventType: EventType, fn: ObjectRef) returns (err: string)
      ensures err == NullMethod
    {
      var wrapper := NewFunctionalListener(fn, Normal);
      err := wrapper.error;
    }

    /** getListenerCount: the size of the list under exactly that key. */
    function ListenerCount(eventType: EventType): (n: nat)
      reads this
      ensures eventType in listeners ==> n == |listeners[eventType]|
      ensures eventType !in listeners ==> n == 0
    {
      |Lookup(listeners, eventType)|
    }

    /** unregisterAll: both maps emptied. */
    method UnregisterAll()
      modifies this
      ensures listeners == map[] && listenersByObject == map[] && failures == old(failures)
    {
      listeners := map[];
      listenersByObject := map[];
    }

    /** getListenersForEvent: the direct list, then every strict-supertype list in entry order,
        sorted by descending priority. */
    method ListenersFor(cls: EventClass, order: seq<EventType>) returns (r: seq<RegisteredListener>)
      requires EnumeratesKeys(order, listeners)
      ensures r == SortByPriority(Gathered(listeners, cls, order))
    {
      var result := Lookup(listeners, cls.id);
      var i := 0;
      while i < |order|
        invariant 0 <= i <= |order|
        invariant result == Lookup(listeners, cls.id) + Supers(listeners, cls, order[..i])
      {
        var k := order[i];
        assert order[..i + 1][..i] == order[..i];
        if k in listeners && AssignableFrom(k, cls) && k != cls.id {
          result := result + listeners[k];
        }
        i := i + 1;
      }
      assert order[..i] == order;
      r := SortByPriority(result);
    }

    /** fireEvent: visits the listeners getListenersForEvent gives; returns the same event
        and leaves the registrations alone. */
    method FireEvent(e: Event, call: Invoker, order: seq<EventType>) returns (r: Event)
      requires EnumeratesKeys(order, listeners)
      modifies this, e
      ensures r == e
      ensures listeners == old(listeners) && listenersByObject == old(listenersByObject)
      ensures var ls := SortByPriority(Gathered(old(listeners), e.runtimeClass, order));
        var d := Deliver(ls, |ls|, old(e.View()), call);
        e.cancelled == d.cancelled && failures == old(failures) + d.failures
      ensures e.data == old(e.data)
    {
      var ls := ListenersFor(e.runtimeClass, order);
      Notify(e, ls, call);
      r := e;
    }

    /** fireEvent's loop: each listener in turn, skipping as Skips says, reporting each
        exception and going on. */
    method Notify(e: Event, ls: seq<RegisteredListener>, call: Invoker)
      modifies this, e
      ensures listeners == old(listeners) && listenersByObject == old(listenersByObject)
      ensures var d := Deliver(ls, |ls|, old(e.View()), call);
        e.cancelled == d.cancelled && failures == old(failures) + d.failures
      ensures e.data == old(e.data)
    {
      ghost var view := e.View();
      var i := 0;
      while i < |ls|
        invariant 0 <= i <= |ls|
        invariant e.cancelled == Deliver(ls, i, view, call).cancelled
        invariant failures == old(failures) + Deliver(ls, i, view, call).failures
        invariant e.data == old(e.data)
        invariant listeners == old(listeners) && listenersByObject == old(listenersByObject)
      {
        ghost var d := Deliver(ls, i, view, call);
        var l := ls[i];
        if !(e.runtimeClass.cancellable && e.cancelled && l.ignoreCancelled) {
          assert e.View() == view.(cancelled := d.cancelled);
          var re := call(l, e.View());
          if e.runtimeClass.cancellable {
            e.cancelled := re.cancelled;
          }
          if re.failure.Some? {
            failures := failures + [ListenerFailure(l, e.EventName(), re.failure.value)];
          }
          assert Deliver(ls, i + 1, view, call) ==
            Delivery(if view.cls.cancellable then re.cancelled else d.cancelled, d.called + [i],
                     d.failures + if re.failure.Some? then [ListenerFailure(l, view.name, re.failure.value)] else []);
        } else {
          assert Deliver(ls, i + 1, view, call) == d;
        }
        i := i + 1;
      }
    }
  }
}
