/** RegisteredListener and FunctionalRegisteredListener: the immutable record binding a listener
    object and one of its handler methods to a priority and an ignoreCancelled flag, with its
    structural equals/hashCode, and the stable descending-priority sort the service applies. */
module Listeners {
  import opened Wrappers
  import opened JavaStrings
  import opened EventPriorities
  import opened Events

  /** A java.lang.reflect.Method, compared as Method.equals compares it. */
  datatype MethodRef = MethodRef(declaringClass: string, name: string, parameterTypes: seq<string>)

  /** The record's four final fields. What call does, Method.invoke on the listener object,
      is given to the service as a function of the record. */
  datatype RegisteredListener = RegisteredListener(
    listener: ObjectRef,
    handlerMethod: MethodRef,
    priority: EventPriority,
    ignoreCancelled: bool)

  /** The exception the constructor's method.setAccessible(true) raises on a null method. */
  const NullMethod := "NullPointerException"

  /** The constructor; None stands for a null method, which is dereferenced. */
  function NewRegisteredListener(listener: ObjectRef, handlerMethod: Option<MethodRef>, priority: EventPriority,
                                 ignoreCancelled: bool): (r: Result<RegisteredListener, string>)
    ensures r.Failure? <==> handlerMethod.None?
    ensures r.Failure? ==> r.error == NullMethod
    ensures r.Success? ==>
      r.value.listener == listener && r.value.handlerMethod == handlerMethod.value &&
      r.value.priority == priority && r.value.ignoreCancelled == ignoreCancelled
  {
    if handlerMethod.None? then Failure(NullMethod)
    else Success(RegisteredListener(listener, handlerMethod.value, priority, ignoreCancelled))
  }

  /** FunctionalRegisteredListener(listener, priority): hands the wrapped function to the base
      constructor as the listener, with a null method and ignoreCancelled true, so no instance
      is ever made. */
  function NewFunctionalListener(fn: ObjectRef, priority: EventPriority): (r: Result<RegisteredListener, string>)
    ensures r == Failure(NullMethod)
  {
    NewRegisteredListener(fn, None, priority, true)
  }

  // ---------------------------------------------------------------------------
  // equals and hashCode
  // ---------------------------------------------------------------------------

  /** equals: same listener object and equal methods; priority and flag are not compared. */
  predicate ListenerEquals(a: RegisteredListener, b: RegisteredListener) {
    a.listener == b.listener && a.handlerMethod == b.handlerMethod
  }

  /** equals is an equivalence, holds for a record and itself, and ignores priority and flag. */
  lemma ListenerEqualsEquivalence(a: RegisteredListener, b: RegisteredListener, c: RegisteredListener)
    ensures ListenerEquals(a, a)
    ensures ListenerEquals(a, b) ==> ListenerEquals(b, a)
    ensures ListenerEquals(a, b) && ListenerEquals(b, c) ==> ListenerEquals(a, c)
    ensures ListenerEquals(a, a.(priority := b.priority, ignoreCancelled := b.ignoreCancelled))
  {
  }

  /** An int result: the product and sum wrapped to 32 bits as Java's int arithmetic does. */
  function Wrap32(x: int): (r: int)
    ensures IntMin <= r <= IntMax
    ensures (r - x) % 0x1_0000_0000 == 0
    ensures IntMin <= x <= IntMax ==> r == x
  {
    (x - IntMin) % 0x1_0000_0000 + IntMin
  }

  /** hashCode: listener.hashCode() * 31 + method.hashCode(), in int arithmetic. The two
      hashCode methods are those of classes outside this model. */
  function HashCode(a: RegisteredListener, objectHash: ObjectRef -> int, methodHash: MethodRef -> int): (h: int)
    ensures IntMin <= h <= IntMax
  {
    Wrap32(Wrap32(objectHash(a.listener) * 31) + methodHash(a.handlerMethod))
  }

  /** Equal records have equal hash codes, and every hash code is an int. */
  lemma EqualListenersEqualHashes(a: RegisteredListener, b: RegisteredListener,
                                  objectHash: ObjectRef -> int, methodHash: MethodRef -> int)
    requires ListenerEquals(a, b)
    ensures HashCode(a, objectHash, methodHash) == HashCode(b, objectHash, methodHash)
    ensures IntMin <= HashCode(a, objectHash, methodHash) <= IntMax
  {
  }

  // ---------------------------------------------------------------------------
  // List.remove(Object)
  // ---------------------------------------------------------------------------

  /** The index of the first element equal to x, or |s| when there is none. */
  function FirstEqual(s: seq<RegisteredListener>, x: RegisteredListener): (i: nat)
    ensures i <= |s|
    ensures i < |s| ==> ListenerEquals(x, s[i])
    ensures forall k :: 0 <= k < i ==> !ListenerEquals(x, s[k])
  {
    if s == [] || ListenerEquals(x, s[0]) then 0 else 1 + FirstEqual(s[1..], x)
  }

  /** List.remove(x): removes the first element x equals, if any. */
  function RemoveFirst(s: seq<RegisteredListener>, x: RegisteredListener): (r: seq<RegisteredListener>)
    ensures var i := FirstEqual(s, x);
      (i == |s| ==> r == s) && (i < |s| ==> r == s[..i] + s[i + 1..])
  {
    var i := FirstEqual(s, x);
    if i == |s| then s else s[..i] + s[i + 1..]
  }

  /** The listeners of one object, in list order. */
  function OfObject(s: seq<RegisteredListener>, o: ObjectRef): (r: seq<RegisteredListener>)
    ensures forall y :: y in r <==> y in s && y.listener == o
  {
    if s == [] then []
    else (if s[0].listener == o then [s[0]] else []) + OfObject(s[1..], o)
  }

  lemma {:induction false} OfObjectAppend(a: seq<RegisteredListener>, b: seq<RegisteredListener>, o: ObjectRef)
    ensures OfObject(a + b, o) == OfObject(a, o) + OfObject(b, o)
    decreases |a|
  {
    if a == [] {
      assert a + b == b;
    } else {
      assert (a + b)[0] == a[0];
      assert (a + b)[1..] == a[1..] + b;
      OfObjectAppend(a[1..], b, o);
    }
  }

  /** Removal takes out at most one element, one equal to x, and leaves the listeners of every
      other object, in order. */
  lemma RemoveFirstSpares(s: seq<RegisteredListener>, x: RegisteredListener, o: ObjectRef)
    requires o != x.listener
    ensures OfObject(RemoveFirst(s, x), o) == OfObject(s, o)
    ensures multiset(RemoveFirst(s, x)) <= multiset(s)
    ensures |s| - 1 <= |RemoveFirst(s, x)| <= |s|
  {
    var i := FirstEqual(s, x);
    if i < |s| {
      assert s == s[..i] + [s[i]] + s[i + 1..];
      OfObjectAppend(s[..i] + [s[i]], s[i + 1..], o);
      OfObjectAppend(s[..i], [s[i]], o);
      OfObjectAppend(s[..i], s[i + 1..], o);
      assert OfObject([s[i]], o) == [] by {
        assert [s[i]][1..] == [];
      }
    }
  }

  // ---------------------------------------------------------------------------
  // List.sort by descending priority value (a stable sort)
  // ---------------------------------------------------------------------------

  /** Non-increasing priority value. */
  predicate Descending(s: seq<RegisteredListener>) {
    forall i, j :: 0 <= i < j < |s| ==> s[i].priority.Value() >= s[j].priority.Value()
  }

  /** The elements of one priority, in list order. */
  function AtPriority(s: seq<RegisteredListener>, p: EventPriority): seq<RegisteredListener> {
    if s == [] then []
    else (if s[0].priority == p then [s[0]] else []) + AtPriority(s[1..], p)
  }

  /** Places x before the first element whose value is not above x's. */
  function InsertByPriority(x: RegisteredListener, t: seq<RegisteredListener>): (r: seq<RegisteredListener>)
    requires Descending(t)
    ensures |r| == |t| + 1
    ensures Descending(r) && multiset(r) == multiset(t) + multiset{x}
    ensures r[0] == x || (t != [] && r[0] == t[0])
    decreases |t|
  {
    if t == [] || t[0].priority.Value() <= x.priority.Value() then [x] + t
    else
      var rest := InsertByPriority(x, t[1..]);
      assert multiset(t) == multiset{t[0]} + multiset(t[1..]) by {
        assert t == [t[0]] + t[1..];
      }
      assert rest[0].priority.Value() <= t[0].priority.Value();
      [t[0]] + rest
  }

  /** The comparator (a, b) -> Integer.compare(b.value, a.value) applied by a stable sort. */
  function SortByPriority(s: seq<RegisteredListener>): (r: seq<RegisteredListener>)
    ensures Descending(r) && multiset(r) == multiset(s)
  {
    if s == [] then []
    else
      assert s == [s[0]] + s[1..];
      InsertByPriority(s[0], SortByPriority(s[1..]))
  }

  lemma AtPriorityCons(y: RegisteredListener, s: seq<RegisteredListener>, p: EventPriority)
    ensures AtPriority([y] + s, p) == (if y.priority == p then [y] else []) + AtPriority(s, p)
  {
    assert ([y] + s)[0] == y && ([y] + s)[1..] == s;
  }

  lemma {:induction false} InsertKeepsTies(x: RegisteredListener, t: seq<RegisteredListener>, p: EventPriority)
    requires Descending(t)
    ensures AtPriority(InsertByPriority(x, t), p) == (if x.priority == p then [x] else []) + AtPriority(t, p)
    decreases |t|
  {
    if t == [] || t[0].priority.Value() <= x.priority.Value() {
      AtPriorityCons(x, t, p);
    } else {
      var rest := InsertByPriority(x, t[1..]);
      assert InsertByPriority(x, t) == [t[0]] + rest;
      InsertKeepsTies(x, t[1..], p);
      AtPriorityCons(t[0], rest, p);
      AtPriorityCons(t[0], t[1..], p);
      assert t == [t[0]] + t[1..];
      if x.priority == p {
        assert t[0].priority != p;
      } else {
        assert AtPriority(rest, p) == AtPriority(t[1..], p);
      }
    }
  }

  /** The sort is stable: the listeners of each priority keep their relative order. */
  lemma {:induction false} SortIsStable(s: seq<RegisteredListener>, p: EventPriority)
    ensures AtPriority(SortByPriority(s), p) == AtPriority(s, p)
    decreases |s|
  {
    if s != [] {
      SortIsStable(s[1..], p);
      InsertKeepsTies(s[0], SortByPriority(s[1..]), p);
    }
  }

  /** A list already in descending order is left as it is. */
  lemma {:induction false} SortOfDescending(s: seq<RegisteredListener>)
    requires Descending(s)
    ensures SortByPriority(s) == s
    decreases |s|
  {
    if s != [] {
      SortOfDescending(s[1..]);
      assert s[1..] == [] || s[1..][0].priority.Value() <= s[0].priority.Value();
    }
  }
}
