/**
 * The counting done by the runnables of Main.main: every allocation event
 * whose key passes the include filter adds its allocation size to the counter
 * of that key. The thread pool only changes the order of the additions, so the
 * table is modelled as a sequential fold over the events.
 */
module Aggregation {
  import opened Wrappers
  import opened FoldedStacks
  import opened Includes

  /** The two event kinds that carry allocations. */
  const InNewTlab: string := "jdk.ObjectAllocationInNewTLAB"
  const OutsideTlab: string := "jdk.ObjectAllocationOutsideTLAB"

  /**
   * A recorded event: its kind, and the three fields the core reads, each None
   * when the event lacks it or holds null. Frames are captured innermost first.
   */
  datatype Event = Event(
    name: string,
    stackTrace: Option<seq<Frame>>,
    objectClass: Option<string>,
    allocationSize: Option<nat>)

  predicate IsAllocation(e: Event)
  {
    e.name == InNewTlab || e.name == OutsideTlab
  }

  /**
   * The key an event is counted under, or None when it is not counted: another
   * kind, a missing field, an empty stack, a type translate throws on, or a key
   * the filter rejects.
   */
  function KeyOf(e: Event, includes: set<string>): (r: Option<string>)
    ensures r.Some? ==> IsAllocation(e) && e.allocationSize.Some? && Accepts(includes, r.value)
  {
    if !IsAllocation(e) || e.stackTrace.None? || e.objectClass.None? || e.allocationSize.None? then None
    else if e.stackTrace.value == [] then None
    else
      match FoldedKey(e.stackTrace.value, e.objectClass.value)
      case None => None
      case Some(key) => if Accepts(includes, key) then Some(key) else None
  }

  /** putIfAbsent(key, new LongAdder()) followed by add(amount). */
  function Upsert(m: map<string, nat>, key: string, amount: nat): (r: map<string, nat>)
    ensures r.Keys == m.Keys + {key}
    ensures r[key] == amount + (if key in m then m[key] else 0)
    ensures forall k :: k in m && k != key ==> r[k] == m[k]
  {
    m[key := (if key in m then m[key] else 0) + amount]
  }

  /** The effect of one event on the table. */
  function Step(m: map<string, nat>, e: Event, includes: set<string>): (r: map<string, nat>)
    ensures KeyOf(e, includes).None? ==> r == m
    ensures KeyOf(e, includes).Some? ==> r.Keys == m.Keys + {KeyOf(e, includes).value}
  {
    match KeyOf(e, includes)
    case None => m
    case Some(key) => Upsert(m, key, e.allocationSize.value)
  }

  /** The table after the events, one after the other, starting from `m`. */
  function AggregateFrom(m: map<string, nat>, events: seq<Event>, includes: set<string>): map<string, nat>
  {
    if events == [] then m
    else Step(AggregateFrom(m, events[..|events| - 1], includes), events[|events| - 1], includes)
  }

  /** The table a run builds from an empty one. */
  function Aggregate(events: seq<Event>, includes: set<string>): map<string, nat>
  {
    AggregateFrom(map[], events, includes)
  }

  /** The sizes of the counted events that have `key` as their key, added up. */
  function SumFor(events: seq<Event>, includes: set<string>, key: string): nat
  {
    if events == [] then 0
    else
      var e := events[|events| - 1];
      SumFor(events[..|events| - 1], includes, key)
        + (if KeyOf(e, includes) == Some(key) then e.allocationSize.value else 0)
  }

  /** Some counted event has `key` as its key. */
  predicate Produces(events: seq<Event>, includes: set<string>, key: string)
  {
    exists e :: e in events && KeyOf(e, includes) == Some(key)
  }

  /** The sizes of all counted events, added up. */
  function AcceptedTotal(events: seq<Event>, includes: set<string>): nat
  {
    if events == [] then 0
    else
      var e := events[|events| - 1];
      AcceptedTotal(events[..|events| - 1], includes)
        + (if KeyOf(e, includes).Some? then e.allocationSize.value else 0)
  }

  /** A key is in the table exactly when some counted event has that key. */
  lemma {:induction false} AggregateKeys(events: seq<Event>, includes: set<string>, key: string)
    ensures key in Aggregate(events, includes) <==> Produces(events, includes, key)
  {
    if events != [] {
      var init, e := events[..|events| - 1], events[|events| - 1];
      AggregateKeys(init, includes, key);
      assert events == init + [e];
      if Produces(init, includes, key) {
        var x :| x in init && KeyOf(x, includes) == Some(key);
        assert x in events;
      }
      if KeyOf(e, includes) != Some(key) && Produces(events, includes, key) {
        var x :| x in events && KeyOf(x, includes) == Some(key);
        assert x in init;
      }
    }
  }

  /** Each counter holds the sizes of the events counted under its key, added up. */
  lemma {:induction false} AggregateTotals(events: seq<Event>, includes: set<string>, key: string)
    ensures key in Aggregate(events, includes) ==> Aggregate(events, includes)[key] == SumFor(events, includes, key)
    ensures key !in Aggregate(events, includes) ==> SumFor(events, includes, key) == 0
  {
    if events != [] {
      AggregateTotals(events[..|events| - 1], includes, key);
    }
  }

  /** Counters only grow: no key is removed and no counter decreases. */
  lemma {:induction false} AggregateMonotone(m: map<string, nat>, events: seq<Event>, includes: set<string>)
    ensures m.Keys <= AggregateFrom(m, events, includes).Keys
    ensures forall key :: key in m ==> m[key] <= AggregateFrom(m, events, includes)[key]
  {
    if events != [] {
      AggregateMonotone(m, events[..|events| - 1], includes);
    }
  }

  /** Events that are not counted leave the table as it was. */
  lemma SkippedEvent(m: map<string, nat>, e: Event, includes: set<string>)
    requires !IsAllocation(e) || e.stackTrace.None? || e.stackTrace == Some([])
          || e.objectClass.None? || e.allocationSize.None?
    ensures Step(m, e, includes) == m
  {
  }

  /** An allocation event with all its fields, a stack and an accepted key adds its size under that key. */
  lemma CountedEvent(m: map<string, nat>, e: Event, includes: set<string>)
    requires IsAllocation(e) && e.stackTrace.Some? && e.stackTrace.value != []
    requires e.objectClass.Some? && e.allocationSize.Some?
    requires FoldedKey(e.stackTrace.value, e.objectClass.value).Some?
    requires Accepts(includes, FoldedKey(e.stackTrace.value, e.objectClass.value).value)
    ensures Step(m, e, includes)
         == Upsert(m, FoldedKey(e.stackTrace.value, e.objectClass.value).value, e.allocationSize.value)
  {
  }

  /** An allocation event whose key the filter rejects leaves the table as it was. */
  lemma RejectedEvent(m: map<string, nat>, e: Event, includes: set<string>)
    requires e.stackTrace.Some? && e.objectClass.Some?
    requires FoldedKey(e.stackTrace.value, e.objectClass.value).Some?
    requires !Accepts(includes, FoldedKey(e.stackTrace.value, e.objectClass.value).value)
    ensures Step(m, e, includes) == m
  {
  }

  lemma {:induction false} SumForAppend(s: seq<Event>, t: seq<Event>, includes: set<string>, key: string)
    ensures SumFor(s + t, includes, key) == SumFor(s, includes, key) + SumFor(t, includes, key)
    decreases |t|
  {
    if t == [] {
      assert s + t == s;
    } else {
      var init := t[..|t| - 1];
      assert (s + t)[..|s + t| - 1] == s + init;
      SumForAppend(s, init, includes, key);
    }
  }

  /** Taking one event out of a sequence, as multisets and as per-key sums. */
  lemma RemoveOne(t: seq<Event>, j: nat, includes: set<string>, key: string)
    requires j < |t|
    ensures multiset(t[..j] + t[j + 1..]) == multiset(t) - multiset{t[j]}
    ensures SumFor(t, includes, key) == SumFor(t[..j] + t[j + 1..], includes, key) + SumFor([t[j]], includes, key)
  {
    assert t == t[..j] + [t[j]] + t[j + 1..];
    assert multiset(t) == multiset(t[..j]) + multiset{t[j]} + multiset(t[j + 1..]);
    SumForAppend(t[..j] + [t[j]], t[j + 1..], includes, key);
    SumForAppend(t[..j], [t[j]], includes, key);
    SumForAppend(t[..j], t[j + 1..], includes, key);
  }

  /** Per-key sums do not depend on the order of the events. */
  lemma {:induction false} SumForPermutation(s: seq<Event>, t: seq<Event>, includes: set<string>, key: string)
    requires multiset(s) == multiset(t)
    ensures SumFor(s, includes, key) == SumFor(t, includes, key)
    decreases |s|
  {
    if s != [] {
      var init, e := s[..|s| - 1], s[|s| - 1];
      assert s == init + [e];
      assert multiset(init) == multiset(s) - multiset{e};
      assert e in multiset(t);
      var j :| 0 <= j < |t| && t[j] == e;
      RemoveOne(t, j, includes, key);
      SumForPermutation(init, t[..j] + t[j + 1..], includes, key);
      SumForAppend(init, [e], includes, key);
    }
  }

  /** Whether some event produces a key does not depend on the order of the events. */
  lemma ProducesPermutation(s: seq<Event>, t: seq<Event>, includes: set<string>, key: string)
    requires multiset(s) == multiset(t)
    ensures Produces(s, includes, key) <==> Produces(t, includes, key)
  {
    if Produces(s, includes, key) {
      var x :| x in s && KeyOf(x, includes) == Some(key);
      assert x in multiset(t);
    }
    if Produces(t, includes, key) {
      var x :| x in t && KeyOf(x, includes) == Some(key);
      assert x in multiset(s);
    }
  }

  /** The table does not depend on the order in which the events are processed. */
  lemma AggregateOrderIndependent(s: seq<Event>, t: seq<Event>, includes: set<string>)
    requires multiset(s) == multiset(t)
    ensures Aggregate(s, includes) == Aggregate(t, includes)
  {
    var a, b := Aggregate(s, includes), Aggregate(t, includes);
    forall key | true
      ensures key in a <==> key in b
      ensures key in a ==> a[key] == b[key]
    {
      AggregateKeys(s, includes, key);
      AggregateKeys(t, includes, key);
      ProducesPermutation(s, t, includes, key);
      AggregateTotals(s, includes, key);
      AggregateTotals(t, includes, key);
      SumForPermutation(s, t, includes, key);
    }
  }

  /** The counters of a table, added up. */
  ghost function SumValues(m: map<string, nat>): nat
    decreases |m|
  {
    if m == map[] then 0
    else
      var k :| k in m;
      m[k] + SumValues(m - {k})
  }

  lemma {:induction false} SumValuesRemove(m: map<string, nat>, k: string)
    requires k in m
    ensures SumValues(m) == m[k] + SumValues(m - {k})
    decreases |m|
  {
    var j :| j in m && SumValues(m) == m[j] + SumValues(m - {j});
    if j != k {
      assert |m - {j}| < |m| && |m - {k}| < |m|;
      SumValuesRemove(m - {j}, k);
      SumValuesRemove(m - {k}, j);
      assert m - {j} - {k} == m - {k} - {j};
    }
  }

  lemma UpsertSum(m: map<string, nat>, key: string, amount: nat)
    ensures SumValues(Upsert(m, key, amount)) == SumValues(m) + amount
  {
    var u := Upsert(m, key, amount);
    SumValuesRemove(u, key);
    assert u - {key} == m - {key};
    if key in m {
      SumValuesRemove(m, key);
    } else {
      assert m - {key} == m;
    }
  }

  /** All counters together hold exactly the sizes of all counted events. */
  lemma {:induction false} AggregateGrandTotal(events: seq<Event>, includes: set<string>)
    ensures SumValues(Aggregate(events, includes)) == AcceptedTotal(events, includes)
  {
    if events != [] {
      var init := events[..|events| - 1];
      AggregateGrandTotal(init, includes);
      var e := events[|events| - 1];
      match KeyOf(e, includes)
      case None =>
      case Some(key) => UpsertSum(Aggregate(init, includes), key, e.allocationSize.value);
    }
  }

  /**
   * The shared table of key counters. Runnables call Process; the driver hands
   * every event to one of them.
   */
  class AllocationTable {
    var allocs: map<string, nat>

    constructor ()
      ensures allocs == map[]
    {
      allocs := map[];
    }

    /** putIfAbsent followed by add on the key's counter. */
    method Add(key: string, amount: nat)
      modifies this
      ensures allocs == Upsert(old(allocs), key, amount)
      ensures key in allocs && allocs[key] == (if key in old(allocs) then old(allocs)[key] else 0) + amount
      ensures forall k :: k in old(allocs) ==> k in allocs && (k != key ==> allocs[k] == old(allocs)[k])
    {
      if key !in allocs {
        allocs := allocs[key := 0];
      }
      allocs := allocs[key := allocs[key] + amount];
    }

    /** The runnable made for one event. */
    method Process(e: Event, includes: set<string>)
      modifies this
      ensures allocs == Step(old(allocs), e, includes)
    {
      if e.name == InNewTlab || e.name == OutsideTlab {
        if e.stackTrace.Some? && e.objectClass.Some? && e.allocationSize.Some? {
          var frames := e.stackTrace.value;
          if |frames| > 0 {
            var entry := BuildKey(frames, e.objectClass.value);
            if entry.Some? && Accepts(includes, entry.value) {
              Add(entry.value, e.allocationSize.value);
            }
          }
        }
      }
    }

    /** The events read from the recording, each processed once, then drained. */
    method ProcessAll(events: seq<Event>, includes: set<string>)
      modifies this
      ensures allocs == AggregateFrom(old(allocs), events, includes)
    {
      var i := 0;
      while i < |events|
        invariant 0 <= i <= |events|
        invariant allocs == AggregateFrom(old(allocs), events[..i], includes)
      {
        assert events[..i + 1][..i] == events[..i];
        Process(events[i], includes);
        i := i + 1;
      }
      assert events[..i] == events;
    }
  }
}
