/** `mergeEvents` and `terminalStatus` of client/src/hooks/run-events.ts. */
module EventMerge {
  import opened Basics
  import opened Options

  /** An envelope: its id, its sequence number, its type, and the rest of it. */
  datatype Event = Event(id: string, sequence: int, kind: string, payload: string)

  // ----- Map.set and the stable sort -----

  /** A Map in insertion order: setting a known key keeps its place. */
  function Upsert(byId: seq<Event>, e: Event): (r: seq<Event>)
    ensures e in r
  {
    if byId == [] then [e]
    else if byId[0].id == e.id then [e] + byId[1..]
    else [byId[0]] + Upsert(byId[1..], e)
  }

  function UpsertAll(byId: seq<Event>, events: seq<Event>): seq<Event> {
    if events == [] then byId else Upsert(UpsertAll(byId, events[..|events| - 1]), events[|events| - 1])
  }

  /** In front of the larger sequence numbers, behind the equal ones. */
  function Insert(sorted: seq<Event>, e: Event): seq<Event> {
    if sorted == [] || sorted[|sorted| - 1].sequence <= e.sequence then sorted + [e]
    else Insert(sorted[..|sorted| - 1], e) + [sorted[|sorted| - 1]]
  }

  function Sort(events: seq<Event>): seq<Event> {
    if events == [] then [] else Insert(Sort(events[..|events| - 1]), events[|events| - 1])
  }

  function Merged(existing: seq<Event>, incoming: seq<Event>): seq<Event> {
    if incoming == [] then existing else Sort(UpsertAll(UpsertAll([], existing), incoming))
  }

  method MergeEvents(existing: seq<Event>, incoming: seq<Event>) returns (merged: seq<Event>)
    ensures merged == Merged(existing, incoming)
  {
    hide Upsert, Sort;
    if incoming == [] {
      return existing;
    }
    var byId: seq<Event> := [];
    for i := 0 to |existing|
      invariant byId == UpsertAll([], existing[..i])
    {
      assert existing[..i + 1][..i] == existing[..i];
      byId := Upsert(byId, existing[i]);
    }
    assert existing[..|existing|] == existing;
    for i := 0 to |incoming|
      invariant byId == UpsertAll(UpsertAll([], existing), incoming[..i])
    {
      assert incoming[..i + 1][..i] == incoming[..i];
      byId := Upsert(byId, incoming[i]);
    }
    assert incoming[..|incoming|] == incoming;
    return Sort(byId);
  }

  /** The list after a delivery: batches merged one by one into an empty list. */
  function Delivered(batches: seq<seq<Event>>): seq<Event> {
    if batches == [] then [] else Merged(Delivered(batches[..|batches| - 1]), batches[|batches| - 1])
  }

  function EventsOf(batches: seq<seq<Event>>): set<Event> {
    set i, e | 0 <= i < |batches| && e in batches[i] :: e
  }

  /** An id always carries the same envelope, and ids have distinct sequence numbers. */
  predicate Consistent(events: set<Event>) {
    forall a, b :: a in events && b in events && a != b ==> a.id != b.id && a.sequence != b.sequence
  }

  predicate StrictlySorted(events: seq<Event>) {
    forall i, j :: 0 <= i < j < |events| ==> events[i].sequence < events[j].sequence
  }

  predicate DistinctIds(events: seq<Event>) {
    forall i, j :: 0 <= i < j < |events| ==> events[i].id != events[j].id
  }

  // ----- what a merge keeps -----

  lemma {:induction false} UpsertKeeps(byId: seq<Event>, e: Event)
    requires DistinctIds(byId)
    ensures DistinctIds(Upsert(byId, e))
    ensures forall x :: x in Upsert(byId, e) <==> x == e || (x in byId && x.id != e.id)
  {
    if byId != [] {
      var rest := byId[1..];
      assert byId == [byId[0]] + rest;
      if byId[0].id == e.id {
        forall x | x in rest ensures x.id != e.id { }
      } else {
        UpsertKeeps(rest, e);
      }
    }
  }

  lemma {:induction false} UpsertAllKeeps(byId: seq<Event>, events: seq<Event>)
    requires DistinctIds(byId) && Consistent(Elements(byId) + Elements(events))
    ensures DistinctIds(UpsertAll(byId, events))
    ensures Elements(UpsertAll(byId, events)) == Elements(byId) + Elements(events)
    decreases |events|
  {
    hide DistinctIds, Upsert;
    if events == [] {
      assert Elements(byId) + Elements(events) == Elements(byId);
    } else {
      var init, last := events[..|events| - 1], events[|events| - 1];
      assert events == init + [last];
      assert Elements(events) == Elements(init) + {last};
      UpsertAllKeeps(byId, init);
      var before := UpsertAll(byId, init);
      UpsertKeeps(before, last);
      forall x ensures x in Elements(Upsert(before, last)) <==> x in Elements(before) + {last} {
        assert x in Elements(before) ==> x in Elements(byId) + Elements(events);
        assert last in Elements(byId) + Elements(events);
      }
    }
  }

  predicate Ascending(events: seq<Event>) {
    forall i, j :: 0 <= i < j < |events| ==> events[i].sequence <= events[j].sequence
  }

  lemma {:induction false} AscendingSnoc(init: seq<Event>, last: Event)
    ensures Ascending(init + [last]) <==> Ascending(init) && forall x :: x in init ==> x.sequence <= last.sequence
  {
    var events := init + [last];
    if Ascending(events) {
      forall i, j | 0 <= i < j < |init| ensures init[i].sequence <= init[j].sequence {
        assert events[i].sequence <= events[j].sequence;
      }
      forall i | 0 <= i < |init| ensures init[i].sequence <= last.sequence {
        assert events[i].sequence <= events[|init|].sequence;
      }
    }
  }

  lemma {:induction false} InsertMembers(sorted: seq<Event>, e: Event)
    ensures multiset(Insert(sorted, e)) == multiset(sorted) + multiset{e}
    ensures forall x :: x in Insert(sorted, e) <==> x == e || x in sorted
  {
    if sorted != [] {
      var init, last := sorted[..|sorted| - 1], sorted[|sorted| - 1];
      assert sorted == init + [last];
      if last.sequence > e.sequence { InsertMembers(init, e); }
    }
  }

  lemma {:induction false} InsertKeeps(sorted: seq<Event>, e: Event)
    requires Ascending(sorted)
    ensures Ascending(Insert(sorted, e)) && multiset(Insert(sorted, e)) == multiset(sorted) + multiset{e}
  {
    hide Ascending;
    InsertMembers(sorted, e);
    if sorted == [] {
      assert Ascending([]) by { NothingAscends(); }
      AscendingSnoc([], e);
      assert [] + [e] == sorted + [e];
    } else {
      var init, last := sorted[..|sorted| - 1], sorted[|sorted| - 1];
      assert sorted == init + [last];
      AscendingSnoc(init, last);
      if last.sequence <= e.sequence {
        AscendingSnoc(sorted, e);
      } else {
        InsertKeeps(init, e);
        InsertMembers(init, e);
        AscendingSnoc(Insert(init, e), last);
      }
    }
  }

  lemma {:induction false} SortKeeps(events: seq<Event>)
    ensures Ascending(Sort(events)) && multiset(Sort(events)) == multiset(events)
  {
    hide Ascending, Insert;
    if events == [] {
      assert Ascending(Sort(events)) by { NothingAscends(); }
    } else {
      var init, last := events[..|events| - 1], events[|events| - 1];
      assert events == init + [last];
      SortKeeps(init);
      InsertKeeps(Sort(init), last);
    }
  }

  lemma {:induction false} NothingAscends()
    ensures Ascending([])
  {
  }

  lemma {:induction false} SameMembers(a: seq<Event>, b: seq<Event>)
    requires multiset(a) == multiset(b)
    ensures Elements(a) == Elements(b)
  {
    forall x ensures x in a <==> x in b { assert x in multiset(a) <==> x in multiset(b); }
  }

  lemma {:induction false} SortIsStrict(events: seq<Event>)
    requires DistinctIds(events) && Consistent(Elements(events))
    ensures StrictlySorted(Sort(events)) && Elements(Sort(events)) == Elements(events)
  {
    hide Sort;
    SortKeeps(events);
    SameMembers(events, Sort(events));
    var sorted := Sort(events);
    forall i, j | 0 <= i < j < |sorted| ensures sorted[i].sequence < sorted[j].sequence {
      assert sorted[i] in Elements(sorted) && sorted[j] in Elements(sorted);
      if sorted[i] == sorted[j] {
        TwiceInBoth(events, sorted, i, j);
      }
    }
  }

  lemma {:induction false} TwiceInBoth(events: seq<Event>, sorted: seq<Event>, i: nat, j: nat)
    requires multiset(events) == multiset(sorted) && i < j < |sorted| && sorted[i] == sorted[j]
    ensures !DistinctIds(events)
  {
    var x := sorted[i];
    assert sorted == sorted[..j] + [sorted[j]] + sorted[j + 1..];
    assert x in sorted[..j] by { assert sorted[..j][i] == x; }
    assert multiset(sorted)[x] >= 2;
    AtLeastTwice(events, x);
  }

  lemma {:induction false} AtLeastTwice(events: seq<Event>, x: Event)
    requires multiset(events)[x] >= 2
    ensures exists k, l :: 0 <= k < l < |events| && events[k] == x && events[l] == x
    decreases |events|
  {
    var init, last := events[..|events| - 1], events[|events| - 1];
    assert events == init + [last];
    if last == x {
      assert x in multiset(init);
      var k :| 0 <= k < |init| && init[k] == x;
      assert events[k] == x && events[|init|] == x;
    } else {
      AtLeastTwice(init, x);
      var k, l :| 0 <= k < l < |init| && init[k] == x && init[l] == x;
      assert events[k] == x && events[l] == x;
    }
  }

  /** A strictly sorted list is determined by the events in it. */
  lemma {:induction false} StrictIsUnique(a: seq<Event>, b: seq<Event>)
    requires StrictlySorted(a) && StrictlySorted(b) && Elements(a) == Elements(b)
    ensures a == b
    decreases |a|
  {
    if a == [] {
      SomeElement(b);
    } else {
      assert a[0] in Elements(a);
      assert b != [] by { assert a[0] in Elements(b); }
      FirstIsLeast(a, b);
      FirstIsLeast(b, a);
      assert a[0] == b[0] by { SameFirst(a, b); }
      RestHas(a);
      RestHas(b);
      StrictIsUnique(a[1..], b[1..]);
    }
  }

  lemma {:induction false} SomeElement(events: seq<Event>)
    ensures events != [] ==> Elements(events) != {}
  {
    if events != [] { assert events[0] in Elements(events); }
  }

  lemma {:induction false} FirstIsLeast(a: seq<Event>, b: seq<Event>)
    requires StrictlySorted(a) && a != [] && b != [] && Elements(a) == Elements(b)
    ensures a[0].sequence <= b[0].sequence
  {
    assert b[0] in Elements(b);
    var k :| 0 <= k < |a| && a[k] == b[0];
  }

  lemma {:induction false} SameFirst(a: seq<Event>, b: seq<Event>)
    requires StrictlySorted(a) && a != [] && b != [] && Elements(a) == Elements(b) && a[0].sequence == b[0].sequence
    ensures a[0] == b[0]
  {
    assert b[0] in Elements(b);
    var k :| 0 <= k < |a| && a[k] == b[0];
  }

  lemma {:induction false} RestHas(a: seq<Event>)
    requires StrictlySorted(a) && a != []
    ensures Elements(a[1..]) == Elements(a) - {a[0]} && StrictlySorted(a[1..])
  {
    forall x ensures x in Elements(a[1..]) <==> x in Elements(a) - {a[0]} {
      if x in Elements(a) - {a[0]} {
        var k :| 0 <= k < |a| && a[k] == x;
        assert a[1..][k - 1] == x;
      }
      if x in a[1..] {
        var k :| 0 <= k < |a[1..]| && a[1..][k] == x;
        assert a[k + 1] == x;
      }
    }
  }

  // ----- convergence -----

  lemma {:induction false} NoEvents()
    ensures EventsOf([]) == {} && Elements<Event>([]) == {} && StrictlySorted([])
  {
  }

  lemma {:induction false} EventsOfSnoc(init: seq<seq<Event>>, last: seq<Event>)
    ensures EventsOf(init + [last]) == EventsOf(init) + Elements(last)
  {
    var batches := init + [last];
    forall e ensures e in EventsOf(batches) <==> e in EventsOf(init) + Elements(last) {
      if e in EventsOf(init) {
        var i :| 0 <= i < |init| && e in init[i];
        assert batches[i] == init[i];
      }
      if e in last { assert batches[|init|] == last; }
    }
  }

  lemma {:induction false} SubsetConsistent(a: set<Event>, b: set<Event>)
    requires a <= b && Consistent(b)
    ensures Consistent(a)
  {
  }

  lemma {:induction false} UpsertAllFresh(events: seq<Event>)
    requires Consistent(Elements(events))
    ensures DistinctIds(UpsertAll([], events)) && Elements(UpsertAll([], events)) == Elements(events)
  {
    hide UpsertAll;
    assert Elements([]) + Elements(events) == Elements(events);
    UpsertAllKeeps([], events);
  }

  lemma {:induction false} MergeKeeps(existing: seq<Event>, incoming: seq<Event>)
    requires StrictlySorted(existing) && Consistent(Elements(existing) + Elements(incoming))
    ensures StrictlySorted(Merged(existing, incoming))
    ensures Elements(Merged(existing, incoming)) == Elements(existing) + Elements(incoming)
  {
    hide UpsertAll, Sort, Consistent, StrictlySorted, DistinctIds;
    if incoming == [] {
      assert Elements(existing) + Elements(incoming) == Elements(existing);
    } else {
      SubsetConsistent(Elements(existing), Elements(existing) + Elements(incoming));
      UpsertAllFresh(existing);
      UpsertAllKeeps(UpsertAll([], existing), incoming);
      SortIsStrict(UpsertAll(UpsertAll([], existing), incoming));
    }
  }

  lemma {:induction false} DeliveredIsCanonical(batches: seq<seq<Event>>)
    requires Consistent(EventsOf(batches))
    ensures StrictlySorted(Delivered(batches)) && Elements(Delivered(batches)) == EventsOf(batches)
    decreases |batches|
  {
    hide Merged, Consistent, StrictlySorted, EventsOf;
    if batches == [] {
      NoEvents();
    } else {
      var init, last := batches[..|batches| - 1], batches[|batches| - 1];
      assert batches == init + [last];
      EventsOfSnoc(init, last);
      SubsetConsistent(EventsOf(init), EventsOf(batches));
      DeliveredIsCanonical(init);
      MergeKeeps(Delivered(init), last);
    }
  }

  /** Any two deliveries of the same events, in whatever order, split and
      duplication, give the same list: strictly ordered by sequence, with exactly
      the delivered events in it. */
  lemma {:induction false} DeliveriesConverge(a: seq<seq<Event>>, b: seq<seq<Event>>)
    requires EventsOf(a) == EventsOf(b) && Consistent(EventsOf(a))
    ensures Delivered(a) == Delivered(b) && StrictlySorted(Delivered(a)) && Elements(Delivered(a)) == EventsOf(a)
  {
    hide Delivered, Consistent, EventsOf;
    DeliveredIsCanonical(a);
    DeliveredIsCanonical(b);
    StrictIsUnique(Delivered(a), Delivered(b));
  }

  /** Replaying anything already delivered changes nothing. */
  lemma {:induction false} ReplayChangesNothing(batches: seq<seq<Event>>, replay: seq<Event>)
    requires Consistent(EventsOf(batches)) && Elements(replay) <= EventsOf(batches)
    ensures Merged(Delivered(batches), replay) == Delivered(batches)
  {
    hide Delivered, Consistent, EventsOf, Merged, StrictlySorted;
    DeliveredIsCanonical(batches);
    assert Elements(Delivered(batches)) + Elements(replay) == EventsOf(batches);
    MergeKeeps(Delivered(batches), replay);
    StrictIsUnique(Merged(Delivered(batches), replay), Delivered(batches));
  }

  // ----- the condition is exact -----

  lemma {:induction false} Listed(events: set<Event>) returns (list: seq<Event>)
    ensures Elements(list) == events
  {
    if events == {} {
      list := [];
    } else {
      var e :| e in events;
      var rest := Listed(events - {e});
      list := rest + [e];
      assert Elements(list) == Elements(rest) + {e};
    }
  }

  lemma {:induction false} UpsertAllDistinct(byId: seq<Event>, events: seq<Event>)
    requires DistinctIds(byId)
    ensures DistinctIds(UpsertAll(byId, events))
    decreases |events|
  {
    hide DistinctIds, Upsert;
    if events != [] {
      UpsertAllDistinct(byId, events[..|events| - 1]);
      UpsertKeeps(UpsertAll(byId, events[..|events| - 1]), events[|events| - 1]);
    }
  }

  lemma {:induction false} OneBatch(batch: seq<Event>)
    requires batch != []
    ensures Delivered([batch]) == Sort(UpsertAll([], batch)) && EventsOf([batch]) == Elements(batch)
  {
    hide UpsertAll, Sort;
    assert [batch][..0] == [];
    assert Delivered([]) == [] && UpsertAll([], []) == [] by { UpsertNone(); }
    assert [] + [batch] == [batch];
    EventsOfSnoc([], batch);
    NoEvents();
  }

  lemma {:induction false} UpsertNone()
    ensures UpsertAll([], []) == [] && Delivered([]) == []
  {
  }

  /** The envelope set last wins. */
  lemma {:induction false} LastWins(list: seq<Event>, a: Event, b: Event)
    requires a != b && a.id == b.id
    ensures a in Delivered([list + [a]]) && b !in Delivered([list + [a]])
  {
    hide Upsert, Sort;
    var batch := list + [a];
    OneBatch(batch);
    assert batch[..|batch| - 1] == list && batch[|batch| - 1] == a;
    NoIds();
    UpsertAllDistinct([], list);
    UpsertKeeps(UpsertAll([], list), a);
    SortKeeps(UpsertAll([], batch));
    SameMembers(Sort(UpsertAll([], batch)), UpsertAll([], batch));
    assert UpsertAll([], batch) == Upsert(UpsertAll([], list), a);
    assert a in Elements(UpsertAll([], batch)) && b !in Elements(UpsertAll([], batch));
    assert a in Elements(Delivered([batch])) && b !in Elements(Delivered([batch]));
  }

  lemma {:induction false} NoIds()
    ensures DistinctIds([])
  {
  }

  /** The events with one sequence number, in the order of the list. */
  function OfSequence(events: seq<Event>, n: int): seq<Event> {
    if events == [] then []
    else
      OfSequence(events[..|events| - 1], n) + if events[|events| - 1].sequence == n then [events[|events| - 1]] else []
  }

  lemma {:induction false} OfSequenceSnoc(init: seq<Event>, last: Event, n: int)
    ensures OfSequence(init + [last], n) == OfSequence(init, n) + if last.sequence == n then [last] else []
  {
    assert (init + [last])[..|init|] == init;
  }

  lemma {:induction false} NoneAbove(sorted: seq<Event>, n: int)
    requires forall i :: 0 <= i < |sorted| ==> sorted[i].sequence < n
    ensures OfSequence(sorted, n) == []
  {
    if sorted != [] { NoneAbove(sorted[..|sorted| - 1], n); }
  }

  lemma {:induction false} InsertIsStable(sorted: seq<Event>, e: Event, n: int)
    requires Ascending(sorted)
    ensures OfSequence(Insert(sorted, e), n) == OfSequence(sorted, n) + if e.sequence == n then [e] else []
  {
    if sorted == [] || sorted[|sorted| - 1].sequence <= e.sequence {
      OfSequenceSnoc(sorted, e, n);
    } else {
      var init, last := sorted[..|sorted| - 1], sorted[|sorted| - 1];
      InsertIsStable(init, e, n);
      OfSequenceSnoc(Insert(init, e), last, n);
    }
  }

  lemma {:induction false} SortIsStable(events: seq<Event>, n: int)
    ensures OfSequence(Sort(events), n) == OfSequence(events, n)
  {
    hide Insert, Ascending;
    if events != [] {
      var init, last := events[..|events| - 1], events[|events| - 1];
      SortIsStable(init, n);
      SortKeeps(init);
      InsertIsStable(Sort(init), last, n);
    }
  }

  lemma {:induction false} TwoStayInFront(a: Event, b: Event, events: seq<Event>)
    requires a.id != b.id
    requires forall e :: e in events ==> (e.id == a.id ==> e == a) && (e.id == b.id ==> e == b)
    ensures |UpsertAll([], [a, b] + events)| >= 2 && UpsertAll([], [a, b] + events)[..2] == [a, b]
    decreases |events|
  {
    var batch := [a, b] + events;
    if events == [] {
      assert batch[..1] == [a] && [a][..0] == [] && batch == [a, b];
      UpsertNone();
      assert UpsertAll([], [a]) == [a] && batch[|batch| - 1] == b;
      assert UpsertAll([], batch) == Upsert([a], b);
      assert [a][1..] == [] && Upsert([], b) == [b];
      assert Upsert([a], b) == [a] + [b];
    } else {
      var init, last := events[..|events| - 1], events[|events| - 1];
      assert batch[..|batch| - 1] == [a, b] + init && batch[|batch| - 1] == last;
      TwoStayInFront(a, b, init);
      var before := UpsertAll([], [a, b] + init);
      assert before[0] == before[..2][0] && before[1] == before[..2][1];
      UpsertBehind(before, last);
    }
  }

  lemma {:induction false} UpsertBehind(byId: seq<Event>, e: Event)
    requires |byId| >= 2 && (e.id == byId[0].id ==> e == byId[0]) && (e.id == byId[1].id ==> e == byId[1])
    ensures |Upsert(byId, e)| >= 2 && Upsert(byId, e)[..2] == byId[..2]
  {
    var rest := byId[1..];
    assert rest[0] == byId[1];
  }

  lemma {:induction false} OfSequenceStarts(a: Event, b: Event, events: seq<Event>)
    requires a.sequence == b.sequence
    ensures OfSequence([a, b] + events, a.sequence) != [] && OfSequence([a, b] + events, a.sequence)[0] == a
    decreases |events|
  {
    var all := [a, b] + events;
    if events == [] {
      assert all == [] + [a] + [b];
      OfSequenceSnoc([] + [a], b, a.sequence);
      OfSequenceSnoc([], a, a.sequence);
    } else {
      var init, last := events[..|events| - 1], events[|events| - 1];
      assert all == ([a, b] + init) + [last];
      OfSequenceSnoc([a, b] + init, last, a.sequence);
      OfSequenceStarts(a, b, init);
    }
  }

  /** Of two events with one sequence number the one delivered first stays first. */
  lemma {:induction false} FirstStaysFirst(a: Event, b: Event, list: seq<Event>)
    requires a.id != b.id && a.sequence == b.sequence
    requires forall e :: e in list ==> (e.id == a.id ==> e == a) && (e.id == b.id ==> e == b)
    ensures var r := OfSequence(Delivered([[a, b] + list]), a.sequence); r != [] && r[0] == a
  {
    hide OfSequence, Sort, UpsertAll;
    OneBatch([a, b] + list);
    TwoStayInFront(a, b, list);
    var byId := UpsertAll([], [a, b] + list);
    SortIsStable(byId, a.sequence);
    assert byId == byId[..2] + byId[2..];
    OfSequenceStarts(a, b, byId[2..]);
  }

  ghost predicate Converges(events: set<Event>) {
    forall a, b :: EventsOf(a) == events && EventsOf(b) == events ==> Delivered(a) == Delivered(b)
  }

  lemma {:induction false} IdConflictDiverges(events: set<Event>, a: Event, b: Event)
    requires a in events && b in events && a != b && a.id == b.id
    ensures !Converges(events)
  {
    hide Delivered, EventsOf;
    var list := Listed(events);
    LastWins(list, a, b);
    LastWins(list, b, a);
    OneBatch(list + [a]);
    OneBatch(list + [b]);
    assert Elements(list + [a]) == events && Elements(list + [b]) == events;
    assert EventsOf([list + [a]]) == events && EventsOf([list + [b]]) == events;
  }

  lemma {:induction false} SequenceConflictDiverges(events: set<Event>, a: Event, b: Event)
    requires a in events && b in events && a.id != b.id && a.sequence == b.sequence
    requires forall x, y :: x in events && y in events && x.id == y.id ==> x == y
    ensures !Converges(events)
  {
    hide Delivered, EventsOf, OfSequence, Elements;
    var list := Listed(events);
    ListedAreIn(list, events);
    FirstStaysFirst(a, b, list);
    FirstStaysFirst(b, a, list);
    FrontBatch(a, b, list, events);
    FrontBatch(b, a, list, events);
    var one, other := [[a, b] + list], [[b, a] + list];
    assert Delivered(one) != Delivered(other);
  }

  lemma {:induction false} ListedAreIn(list: seq<Event>, events: set<Event>)
    requires Elements(list) == events
    ensures forall e :: e in list ==> e in events
  {
  }

  lemma {:induction false} FrontBatch(a: Event, b: Event, list: seq<Event>, events: set<Event>)
    requires Elements(list) == events && a in events && b in events
    ensures EventsOf([[a, b] + list]) == events
  {
    hide Delivered, EventsOf;
    OneBatch([a, b] + list);
    assert Elements([a, b] + list) == events;
  }

  /** Merging converges for every delivery of a set of events if and only if the
      set is consistent. */
  lemma {:induction false} ConvergesExactly(events: set<Event>)
    ensures Converges(events) <==> Consistent(events)
  {
    hide Delivered, EventsOf;
    if Consistent(events) {
      forall a, b | EventsOf(a) == events && EventsOf(b) == events ensures Delivered(a) == Delivered(b) {
        DeliveriesConverge(a, b);
      }
    } else {
      var a, b :| a in events && b in events && a != b && !(a.id != b.id && a.sequence != b.sequence);
      if x, y :| x in events && y in events && x != y && x.id == y.id {
        IdConflictDiverges(events, x, y);
      } else {
        SequenceConflictDiverges(events, a, b);
      }
    }
  }

  // ----- terminal status -----

  const TERMINAL_EVENT_TYPES := {"task.completed", "task.cancelled", "task.failed", "task.interrupted", "task.blocked"}

  /** The type without "task.", for the five terminal types. */
  function TerminalStatusOf(kind: string): Option<string> {
    if kind in TERMINAL_EVENT_TYPES && |kind| > 5 then Some(kind[5..]) else None
  }

  predicate Terminal(e: Event) {
    TerminalStatusOf(e.kind).Some?
  }

  /** The status each terminal type stands for; no other type has one. */
  lemma {:induction false} TerminalStatusesAre(kind: string)
    ensures TerminalStatusOf(kind) ==
            if kind == "task.completed" then Some("completed")
            else if kind == "task.cancelled" then Some("cancelled")
            else if kind == "task.failed" then Some("failed")
            else if kind == "task.interrupted" then Some("interrupted")
            else if kind == "task.blocked" then Some("blocked")
            else None
  {
    assert "task.completed"[5..] == "completed" && "task.cancelled"[5..] == "cancelled";
    assert "task.failed"[5..] == "failed" && "task.interrupted"[5..] == "interrupted";
    assert "task.blocked"[5..] == "blocked";
  }

  function LastTerminal(events: seq<Event>): Option<string> {
    if events == [] then None
    else if Terminal(events[|events| - 1]) then TerminalStatusOf(events[|events| - 1].kind)
    else LastTerminal(events[..|events| - 1])
  }

  method TerminalStatus(events: seq<Event>) returns (status: Option<string>)
    ensures status == LastTerminal(events)
  {
    hide TerminalStatusOf;
    assert events[..|events|] == events;
    for i := |events| downto 0
      invariant LastTerminal(events[..i]) == LastTerminal(events)
    {
      assert events[..i + 1][..i] == events[..i];
      var found := TerminalStatusOf(events[i].kind);
      if found.Some? {
        return found;
      }
    }
    return None;
  }

  lemma {:induction false} LastTerminalIs(events: seq<Event>)
    ensures LastTerminal(events) == None <==> forall e :: e in events ==> !Terminal(e)
    ensures LastTerminal(events).Some? ==>
              exists i :: 0 <= i < |events| && Terminal(events[i]) &&
                  LastTerminal(events) == TerminalStatusOf(events[i].kind) &&
                          forall j :: i < j < |events| ==> !Terminal(events[j])
  {
    hide TerminalStatusOf;
    if events != [] {
      var init, last := events[..|events| - 1], events[|events| - 1];
      assert events == init + [last];
      if !Terminal(last) {
        LastTerminalIs(init);
        if LastTerminal(init).Some? {
          var i :| 0 <= i < |init| && Terminal(init[i]) && LastTerminal(init) == TerminalStatusOf(init[i].kind) &&
                   forall j :: i < j < |init| ==> !Terminal(init[j]);
          assert events[i] == init[i];
          assert forall j :: i < j < |events| ==> !Terminal(events[j]);
        }
      }
    }
  }

  /** The status shown after any delivery: none while no terminal event has come,
      else that of the terminal event with the largest sequence number. */
  lemma {:induction false} StatusIsLatest(batches: seq<seq<Event>>)
    requires Consistent(EventsOf(batches))
    ensures var status := LastTerminal(Delivered(batches));
            && (status == None <==> forall e :: e in EventsOf(batches) ==> !Terminal(e))
            && (status.Some? ==>
                  exists e :: e in EventsOf(batches) && Terminal(e) && status == TerminalStatusOf(e.kind) &&
                              forall x :: x in EventsOf(batches) && Terminal(x) ==> x.sequence <= e.sequence)
  {
    hide Delivered, EventsOf, Consistent, TerminalStatusOf;
    var list := Delivered(batches);
    DeliveredIsCanonical(batches);
    LastTerminalIs(list);
    forall e ensures e in list <==> e in EventsOf(batches) { assert e in Elements(list) <==> e in EventsOf(batches); }
    if LastTerminal(list).Some? {
      var i :| 0 <= i < |list| && Terminal(list[i]) && LastTerminal(list) == TerminalStatusOf(list[i].kind) &&
               forall j :: i < j < |list| ==> !Terminal(list[j]);
      forall x | x in EventsOf(batches) && Terminal(x) ensures x.sequence <= list[i].sequence {
        var j :| 0 <= j < |list| && list[j] == x;
      }
      assert list[i] in EventsOf(batches);
    }
  }
}
