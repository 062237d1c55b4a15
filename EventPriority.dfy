/** EventPriority: the six listener priorities and their numeric values; listeners with a
    higher value are called first. */
module EventPriorities {

  datatype EventPriority = Lowest | Low | Normal | High | Highest | Monitor
  {
    /** getValue: the constructor argument of each constant. */
    function Value(): (v: nat)
      ensures v <= 5
    {
      match this
      case Lowest => 0
      case Low => 1
      case Normal => 2
      case High => 3
      case Highest => 4
      case Monitor => 5
    }
  }

  /** The constants in declaration order. */
  const AllPriorities: seq<EventPriority> := [Lowest, Low, Normal, High, Highest, Monitor]

  /** There are exactly six priorities, and the i-th declared one has value i. */
  lemma PrioritiesEnumerated(p: EventPriority)
    ensures p in AllPriorities && |AllPriorities| == 6
    ensures forall i :: 0 <= i < |AllPriorities| ==> AllPriorities[i].Value() == i
  {
  }

  /** Values strictly increase in declaration order. */
  lemma ValuesIncrease()
    ensures forall i, j :: 0 <= i < j < |AllPriorities| ==> AllPriorities[i].Value() < AllPriorities[j].Value()
  {
    PrioritiesEnumerated(Lowest);
  }

  /** Distinct priorities have distinct values, so a value names its priority. */
  lemma ValueInjective(p: EventPriority, q: EventPriority)
    ensures p.Value() == q.Value() <==> p == q
  {
  }

  /** MONITOR has the largest value and LOWEST the smallest. */
  lemma MonitorIsMaximum(p: EventPriority)
    ensures Lowest.Value() <= p.Value() <= Monitor.Value()
    ensures p.Value() == Monitor.Value() ==> p == Monitor
  {
  }
}
