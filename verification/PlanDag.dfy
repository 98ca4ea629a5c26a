/** `_validate_dag` of langgraph_pico/planning.py: Kahn's algorithm with a stack. */
module PlanDag {
  import opened Basics

  /** A step as the check sees it. */
  datatype Node = Node(id: string, dependencies: set<string>)

  datatype Check = Acceptable | DependencyMissing | DependencyCycle

  function Ids(steps: seq<Node>): (r: set<string>)
    ensures forall id :: id in r <==> exists i :: 0 <= i < |steps| && steps[i].id == id
  {
    set i | 0 <= i < |steps| :: steps[i].id
  }

  predicate DistinctIds(steps: seq<Node>) {
    forall i, j :: 0 <= i < j < |steps| ==> steps[i].id != steps[j].id
  }

  predicate DependenciesExist(steps: seq<Node>) {
    forall i :: 0 <= i < |steps| ==> steps[i].dependencies <= Ids(steps)
  }

  predicate NoRepeats(s: seq<string>) {
    forall i, j :: 0 <= i < j < |s| ==> s[i] != s[j]
  }

  /** An order of all the steps in which each comes after what it depends on. */
  predicate Topological(steps: seq<Node>, order: seq<string>) {
    && NoRepeats(order)
    && (forall i :: 0 <= i < |steps| ==> steps[i].id in order)
    && (forall k :: 0 <= k < |order| ==> order[k] in Ids(steps))
    && (forall i, k :: 0 <= i < |steps| && 0 <= k < |order| && order[k] == steps[i].id ==>
          forall d :: d in steps[i].dependencies ==> d in order[..k])
  }

  ghost predicate Orderable(steps: seq<Node>) {
    exists order :: Topological(steps, order)
  }

  lemma {:induction false} CountElements(s: seq<string>)
    requires NoRepeats(s)
    ensures |Elements(s)| == |s|
  {
    if s != [] {
      var init, last := s[..|s| - 1], s[|s| - 1];
      CountElements(init);
      assert Elements(s) == Elements(init) + {last};
      assert last !in init;
    }
  }

  lemma {:induction false} CountIds(steps: seq<Node>)
    ensures |Ids(steps)| <= |steps|
    ensures |Ids(steps)| == |steps| ==> DistinctIds(steps)
    ensures DistinctIds(steps) ==> |Ids(steps)| == |steps|
  {
    hide DistinctIds;
    if steps == [] {
      assert DistinctIds(steps) by { NoneDistinct(); }
    }
    if steps != [] {
      var init, last := steps[..|steps| - 1], steps[|steps| - 1];
      CountIds(init);
      assert Ids(steps) == Ids(init) + {last.id};
      assert steps == init + [last];
      DistinctSnoc(init, last);
    }
  }

  lemma {:induction false} NoneDistinct()
    ensures DistinctIds([])
  {
  }

  lemma {:induction false} DistinctSnoc(init: seq<Node>, last: Node)
    ensures DistinctIds(init + [last]) <==> DistinctIds(init) && last.id !in Ids(init)
  {
    var steps := init + [last];
    assert forall i :: 0 <= i < |init| ==> steps[i] == init[i];
    assert steps[|init|] == last;
    if DistinctIds(steps) {
      forall i, j | 0 <= i < j < |init| ensures init[i].id != init[j].id { assert steps[i].id != steps[j].id; }
      forall i | 0 <= i < |init| ensures init[i].id != last.id { assert steps[i].id != steps[|init|].id; }
    }
  }

  /** The state of the worklist: what is visited or ready is exactly what has no
      unvisited dependency left. */
  ghost predicate Worklist(incoming0: map<string, set<string>>, incoming: map<string, set<string>>,
      ready: seq<string>, visited: seq<string>) {
    && incoming.Keys == incoming0.Keys
    && NoRepeats(visited + ready)
    && (forall id :: id in incoming ==> incoming[id] == incoming0[id] - Elements(visited))
    && (forall id :: id in incoming ==> (incoming[id] == {} <==> id in visited + ready))
    && (forall id :: id in visited + ready ==> id in incoming)
  }

  predicate OrderSoFar(incoming0: map<string, set<string>>, visited: seq<string>) {
    forall k :: 0 <= k < |visited| && visited[k] in incoming0 ==> incoming0[visited[k]] <= Elements(visited[..k])
  }

  function Incoming(steps: seq<Node>): (m: map<string, set<string>>)
    ensures m.Keys == Ids(steps)
  {
    if steps == [] then map[]
    else
      var init, last := steps[..|steps| - 1], steps[|steps| - 1];
      assert Ids(steps) == Ids(init) + {last.id};
      Incoming(init)[last.id := last.dependencies]
  }

  lemma {:induction false} IncomingOfDistinct(steps: seq<Node>, i: nat)
    requires i < |steps| && DistinctIds(steps)
    ensures steps[i].id in Incoming(steps) && Incoming(steps)[steps[i].id] == steps[i].dependencies
    decreases |steps|
  {
    hide DistinctIds;
    var init, last := steps[..|steps| - 1], steps[|steps| - 1];
    assert steps == init + [last];
    DistinctSnoc(init, last);
    if i < |init| { IncomingOfDistinct(init, i); }
  }

  lemma {:induction false} IncomingIsSome(steps: seq<Node>, id: string) returns (i: nat)
    requires id in Incoming(steps)
    ensures i < |steps| && steps[i].id == id && steps[i].dependencies == Incoming(steps)[id]
    decreases |steps|
  {
    var n := |steps| - 1;
    if steps[n].id == id { i := n; } else { i := IncomingIsSome(steps[..n], id); }
  }

  /** The keys of the dictionary, in the order Python iterates them. */
  function Keys(steps: seq<Node>): (r: seq<string>)
    ensures forall id :: id in r <==> id in Ids(steps)
    ensures NoRepeats(r)
  {
    if steps == [] then []
    else
      var init, last := steps[..|steps| - 1], steps[|steps| - 1];
      assert Ids(steps) == Ids(init) + {last.id};
      if last.id in Keys(init) then Keys(init) else Keys(init) + [last.id]
  }

  lemma {:induction false} SelfDependency(steps: seq<Node>, id: string)
    requires id in Incoming(steps) && id in Incoming(steps)[id]
    ensures !DistinctIds(steps) || !Orderable(steps)
  {
    if DistinctIds(steps) && Orderable(steps) {
      var order :| Topological(steps, order);
      var i := IncomingIsSome(steps, id);
      NeverItself(steps, order, i);
    }
  }

  lemma {:induction false} NeverItself(steps: seq<Node>, order: seq<string>, i: nat)
    requires Topological(steps, order) && i < |steps|
    ensures steps[i].id !in steps[i].dependencies
  {
    assert steps[i].id in order;
    var k :| 0 <= k < |order| && order[k] == steps[i].id;
    assert order[k] !in order[..k];
  }

  lemma {:induction false} ElementsSnoc(s: seq<string>, x: string)
    ensures Elements(s + [x]) == Elements(s) + {x}
  {
  }

  /** There is an unvisited key as long as anything is ready. */
  lemma {:induction false} RoomLeft(keys: seq<string>, visited: seq<string>, current: string)
    requires NoRepeats(keys) && NoRepeats(visited) && current in keys && current !in visited
    requires forall id :: id in visited ==> id in keys
    ensures |visited| < |keys|
  {
    CountElements(keys);
    CountElements(visited);
    assert Elements(visited) <= Elements(keys) - {current};
    assert |Elements(keys) - {current}| == |Elements(keys)| - 1;
    Smaller(Elements(visited), Elements(keys) - {current});
  }

  lemma {:induction false} Smaller(a: set<string>, b: set<string>)
    requires a <= b
    ensures |a| <= |b|
  {
    if a != {} {
      var x :| x in a;
      Smaller(a - {x}, b - {x});
    }
  }

  /** After `current` is visited, the steps up to the i-th key have been released. */
  ghost predicate Releasing(keys: seq<string>, incoming0: map<string, set<string>>, incoming: map<string, set<string>>,
                      popped: seq<string>, ready: seq<string>, before: seq<string>, current: string, i: nat)
    requires i <= |keys| && forall id :: id in keys <==> id in incoming0
  {
    && incoming.Keys == incoming0.Keys && NoRepeats(ready)
    && (forall id :: id in incoming ==>
          incoming[id] == incoming0[id] - (Elements(before) + if id in keys[..i] then {current} else {}))
    && (forall id :: id in ready <==>
          id in popped || (id in keys[..i] && current in incoming0[id] &&
              incoming0[id] <= Elements(before) + {current}))
  }

  /** The inner loop: one visited step is taken out of the dependencies of the others. */
  method Release(keys: seq<string>, incoming0: map<string, set<string>>, incoming1: map<string, set<string>>,
                 popped: seq<string>, ghost before: seq<string>, current: string)
    returns (incoming: map<string, set<string>>, ready: seq<string>)
    requires NoRepeats(keys) && forall id :: id in keys <==> id in incoming0
    requires Worklist(incoming0, incoming1, popped + [current], before)
    ensures Worklist(incoming0, incoming, ready, before + [current])
  {
    hide Worklist, Releasing, NoRepeats;
    incoming, ready := incoming1, popped;
    assert Releasing(keys, incoming0, incoming, popped, ready, before, current, 0) by {
      StartReleasing(keys, incoming0, incoming1, popped, before, current);
    }
    for i := 0 to |keys|
      invariant Releasing(keys, incoming0, incoming, popped, ready, before, current, i)
    {
      ReleaseOne(keys, incoming0, incoming1, incoming, popped, ready, before, current, i);
      var id := keys[i];
      if current in incoming[id] {
        incoming := incoming[id := incoming[id] - {current}];
        if incoming[id] == {} {
          ready := ready + [id];
        }
      }
    }
    Released(keys, incoming0, incoming1, incoming, popped, ready, before, current);
  }

  lemma {:induction false} StartReleasing(keys: seq<string>, incoming0: map<string, set<string>>,
      incoming1: map<string, set<string>>,
                                          popped: seq<string>, before: seq<string>, current: string)
    requires forall id :: id in keys <==> id in incoming0
    requires Worklist(incoming0, incoming1, popped + [current], before)
    ensures Releasing(keys, incoming0, incoming1, popped, popped, before, current, 0)
  {
    var all := before + (popped + [current]);
    forall i, j | 0 <= i < j < |popped| ensures popped[i] != popped[j] {
      assert all[|before| + i] == popped[i] && all[|before| + j] == popped[j];
    }
  }

  /** Whoever still waits for `current` alone is neither visited nor ready. */
  lemma {:induction false} NotYetReady(incoming0: map<string, set<string>>, incoming1: map<string, set<string>>,
                                       popped: seq<string>, before: seq<string>, current: string, id: string)
    requires Worklist(incoming0, incoming1, popped + [current], before) && id in incoming0 && current in incoming0[id]
    ensures id !in popped && id !in before && id != current && current !in before
  {
    var all := before + (popped + [current]);
    assert all[|all| - 1] == current;
    forall k | 0 <= k < |before| ensures before[k] != current { assert all[k] == before[k]; }
    assert current in incoming1[id];
    assert id !in all;
    forall k | 0 <= k < |popped| ensures popped[k] != id { assert all[|before| + k] == popped[k]; }
    forall k | 0 <= k < |before| ensures before[k] != id { assert all[k] == before[k]; }
  }

  lemma {:induction false} ReleaseOne(keys: seq<string>, incoming0: map<string, set<string>>,
      incoming1: map<string, set<string>>,
                                      incoming: map<string, set<string>>, popped: seq<string>, ready: seq<string>,
                                      before: seq<string>, current: string, i: nat)
    requires NoRepeats(keys) && (forall id :: id in keys <==> id in incoming0) && i < |keys|
    requires Worklist(incoming0, incoming1, popped + [current], before)
    requires Releasing(keys, incoming0, incoming, popped, ready, before, current, i)
    ensures keys[i] in incoming
    ensures var id := keys[i];
            var next := if current in incoming[id] then incoming[id := incoming[id] - {current}] else incoming;
            var more := if current in incoming[id] && next[id] == {} then ready + [id] else ready;
            Releasing(keys, incoming0, next, popped, more, before, current, i + 1)
  {
    hide Worklist;
    var id := keys[i];
    assert keys[..i + 1] == keys[..i] + [id];
    assert id !in keys[..i];
    if current in incoming0[id] {
      NotYetReady(incoming0, incoming1, popped, before, current, id);
      assert id !in ready;
    }
  }

  lemma {:induction false} Released(keys: seq<string>, incoming0: map<string, set<string>>,
      incoming1: map<string, set<string>>,
                                    incoming: map<string, set<string>>, popped: seq<string>, ready: seq<string>,
                                    before: seq<string>, current: string)
    requires NoRepeats(keys) && forall id :: id in keys <==> id in incoming0
    requires Worklist(incoming0, incoming1, popped + [current], before)
    requires Releasing(keys, incoming0, incoming, popped, ready, before, current, |keys|)
    ensures Worklist(incoming0, incoming, ready, before + [current])
  {
    var visited := before + [current];
    var all := before + (popped + [current]);
    ElementsSnoc(before, current);
    assert keys[..|keys|] == keys;
    assert current in all;
    assert forall id :: id in before ==> id in all;
    assert forall id :: id in popped ==> id in popped + [current];
    assert forall id :: id in popped ==> id in all;
    forall id | id in incoming0 ensures incoming[id] == {} <==> id in visited + ready {
      WhenReleased(keys, incoming0, incoming1, incoming, popped, ready, before, current, id);
    }
    forall id | id in ready ensures id !in visited {
      if id in popped {
        PoppedApart(popped, before, current, id);
      } else {
        NotYetReady(incoming0, incoming1, popped, before, current, id);
      }
    }
    VisitedApart(popped, before, current);
    JoinApart(visited, ready);
  }

  lemma {:induction false} WhenReleased(keys: seq<string>, incoming0: map<string, set<string>>,
      incoming1: map<string, set<string>>,
                                        incoming: map<string, set<string>>, popped: seq<string>, ready: seq<string>,
                                        before: seq<string>, current: string, id: string)
    requires NoRepeats(keys) && (forall k :: k in keys <==> k in incoming0) && id in incoming0
    requires Worklist(incoming0, incoming1, popped + [current], before)
    requires Releasing(keys, incoming0, incoming, popped, ready, before, current, |keys|)
    ensures incoming[id] == {} <==> id in before + [current] + ready
  {
    var all := before + (popped + [current]);
    assert keys[..|keys|] == keys;
    assert incoming[id] == incoming1[id] - {current};
    assert id in all <==> id in before || id in popped || id == current;
    if current in incoming0[id] {
      NotYetReady(incoming0, incoming1, popped, before, current, id);
    }
  }

  lemma {:induction false} PoppedApart(popped: seq<string>, before: seq<string>, current: string, id: string)
    requires NoRepeats(before + (popped + [current])) && id in popped
    ensures id !in before + [current]
  {
    var all := before + (popped + [current]);
    var k :| 0 <= k < |popped| && popped[k] == id;
    assert all[|before| + k] == id && all[|all| - 1] == current;
    forall j | 0 <= j < |before| ensures before[j] != id { assert all[j] == before[j]; }
  }

  lemma {:induction false} VisitedApart(popped: seq<string>, before: seq<string>, current: string)
    requires NoRepeats(before + (popped + [current]))
    ensures NoRepeats(before + [current])
  {
    var all := before + (popped + [current]);
    var visited := before + [current];
    assert all[|all| - 1] == current;
    forall i, j | 0 <= i < j < |visited| ensures visited[i] != visited[j] {
      assert visited[i] == all[i];
      if j < |before| { assert visited[j] == all[j]; }
    }
  }

  lemma {:induction false} JoinApart(a: seq<string>, b: seq<string>)
    requires NoRepeats(a) && NoRepeats(b) && forall x :: x in b ==> x !in a
    ensures NoRepeats(a + b)
  {
    var c := a + b;
    forall i, j | 0 <= i < j < |c| ensures c[i] != c[j] {
      if i < |a| && j >= |a| { assert c[j] in b && c[i] in a; }
    }
  }

  /** With nothing ready, every step of any topological order has been visited. */
  lemma {:induction false} OrderIsVisited(steps: seq<Node>, incoming: map<string, set<string>>, visited: seq<string>,
      order: seq<string>, k: nat)
    requires DistinctIds(steps) && Topological(steps, order) && k <= |order|
    requires Worklist(Incoming(steps), incoming, [], visited)
    ensures forall x :: x in order[..k] ==> x in visited
  {
    hide Worklist, Topological, DistinctIds, Incoming;
    if k > 0 {
      OrderIsVisited(steps, incoming, visited, order, k - 1);
      assert order[..k] == order[..k - 1] + [order[k - 1]];
      var i := StepAt(steps, order, k - 1);
      IncomingOfDistinct(steps, i);
      DoneIsVisited(Incoming(steps), incoming, visited, order[k - 1]);
    }
  }

  lemma {:induction false} StepAt(steps: seq<Node>, order: seq<string>, k: nat) returns (i: nat)
    requires Topological(steps, order) && k < |order|
    ensures i < |steps| && steps[i].id == order[k] && forall d :: d in steps[i].dependencies ==> d in order[..k]
  {
    assert order[k] in Ids(steps);
    i :| 0 <= i < |steps| && steps[i].id == order[k];
  }

  lemma {:induction false} DoneIsVisited(incoming0: map<string, set<string>>, incoming: map<string, set<string>>,
      visited: seq<string>, id: string)
    requires Worklist(incoming0, incoming, [], visited) && id in incoming0
    requires forall d :: d in incoming0[id] ==> d in visited
    ensures id in visited
  {
    assert incoming[id] == {};
    assert visited + [] == visited;
  }

  lemma {:induction false} Exhausted(steps: seq<Node>, incoming: map<string, set<string>>, visited: seq<string>)
    requires Worklist(Incoming(steps), incoming, [], visited) && OrderSoFar(Incoming(steps), visited)
    requires forall id :: id in Incoming(steps) ==> Incoming(steps)[id] <= Ids(steps)
    ensures NoRepeats(visited) && Elements(visited) <= Ids(steps)
    ensures |visited| == |steps| ==> DistinctIds(steps) && DependenciesExist(steps) && Topological(steps, visited)
    ensures DistinctIds(steps) && Orderable(steps) ==> |visited| == |steps|
  {
    hide Topological, DistinctIds, DependenciesExist, Incoming, OrderSoFar, Worklist, Orderable, NoRepeats;
    OnlyVisited(steps, incoming, visited);
    CountElements(visited);
    CountIds(steps);
    Smaller(Elements(visited), Ids(steps));
    if |visited| == |steps| {
      AllVisited(Elements(visited), Ids(steps));
      VisitedIsOrder(steps, visited);
    }
    if DistinctIds(steps) && Orderable(steps) {
      OrderableIsVisited(steps, incoming, visited);
      Smaller(Ids(steps), Elements(visited));
    }
  }

  lemma {:induction false} OnlyVisited(steps: seq<Node>, incoming: map<string, set<string>>, visited: seq<string>)
    requires Worklist(Incoming(steps), incoming, [], visited)
    ensures NoRepeats(visited) && Elements(visited) <= Ids(steps)
  {
    hide Incoming;
    assert visited + [] == visited;
  }

  lemma {:induction false} OrderableIsVisited(steps: seq<Node>, incoming: map<string, set<string>>,
      visited: seq<string>)
    requires DistinctIds(steps) && Orderable(steps) && Worklist(Incoming(steps), incoming, [], visited)
    ensures Ids(steps) <= Elements(visited)
  {
    hide Incoming, Worklist, DistinctIds;
    var order :| Topological(steps, order);
    OrderIsVisited(steps, incoming, visited, order, |order|);
    assert order[..|order|] == order;
  }

  lemma {:induction false} AllVisited(a: set<string>, b: set<string>)
    requires a <= b && |a| >= |b|
    ensures a == b
  {
    if !(b <= a) {
      var x :| x in b && x !in a;
      Smaller(a, b - {x});
    }
  }

  lemma {:induction false} VisitedIsOrder(steps: seq<Node>, visited: seq<string>)
    requires DistinctIds(steps) && NoRepeats(visited) && Elements(visited) == Ids(steps) &&
             OrderSoFar(Incoming(steps), visited)
    requires forall id :: id in Incoming(steps) ==> Incoming(steps)[id] <= Ids(steps)
    ensures DependenciesExist(steps) && Topological(steps, visited)
  {
    forall i | 0 <= i < |steps| ensures steps[i].id in visited && steps[i].dependencies <= Ids(steps) {
      IncomingOfDistinct(steps, i);
      assert steps[i].id in Elements(visited);
    }
    forall k | 0 <= k < |visited| ensures visited[k] in Ids(steps) { assert visited[k] in Elements(visited); }
    forall i, k, d | 0 <= i < |steps| && 0 <= k < |visited| && visited[k] == steps[i].id && d in steps[i].dependencies
      ensures d in visited[..k]
    {
      IncomingOfDistinct(steps, i);
      assert d in Elements(visited[..k]);
    }
  }

  method ValidateDag(steps: seq<Node>) returns (check: Check, visited: seq<string>)
    ensures check == Acceptable <==> DistinctIds(steps) && DependenciesExist(steps) && Orderable(steps)
    ensures check == DependencyMissing ==> !DependenciesExist(steps)
    ensures DistinctIds(steps) && !DependenciesExist(steps) ==> check == DependencyMissing
    ensures check == DependencyCycle ==> !DistinctIds(steps) || !Orderable(steps)
    ensures NoRepeats(visited) && Elements(visited) <= Ids(steps)
    ensures check == Acceptable ==> Topological(steps, visited)
  {
    hide Worklist, Topological, Incoming, Keys, OrderSoFar, NoRepeats;
    var keys := Keys(steps);
    var incoming := Incoming(steps);
    if exists id :: id in keys && !(incoming[id] <= Ids(steps)) {
      ghost var id :| id in keys && !(incoming[id] <= Ids(steps));
      ghost var i := IncomingIsSome(steps, id);
      NoneVisited();
      return DependencyMissing, [];
    }
    if exists id :: id in keys && id in incoming[id] {
      ghost var id :| id in keys && id in incoming[id];
      SelfDependency(steps, id);
      AllExist(steps);
      NoneVisited();
      return DependencyCycle, [];
    }
    AllExist(steps);
    ghost var left: map<string, set<string>>;
    visited, left := Visit(keys, incoming);
    Exhausted(steps, left, visited);
    check := if |visited| != |steps| then DependencyCycle else Acceptable;
  }

  lemma {:induction false} AllExist(steps: seq<Node>)
    requires forall id :: id in Incoming(steps) ==> Incoming(steps)[id] <= Ids(steps)
    ensures DistinctIds(steps) ==> DependenciesExist(steps)
  {
    hide Incoming, DistinctIds;
    if DistinctIds(steps) {
      forall i | 0 <= i < |steps| ensures steps[i].dependencies <= Ids(steps) { IncomingOfDistinct(steps, i); }
    }
  }

  lemma {:induction false} NoneVisited()
    ensures NoRepeats([]) && Elements<string>([]) == {}
  {
  }

  /** The worklist loop: a stack of steps whose dependencies are all visited. */
  method Visit(keys: seq<string>, incoming0: map<string, set<string>>)
      returns (visited: seq<string>, ghost left: map<string, set<string>>)
    requires NoRepeats(keys) && forall id :: id in keys <==> id in incoming0
    ensures Worklist(incoming0, left, [], visited) && OrderSoFar(incoming0, visited)
  {
    hide Worklist, OrderSoFar, NoRepeats;
    visited := [];
    var incoming := incoming0;
    var ready := FirstReady(keys, incoming);
    assert OrderSoFar(incoming0, []) by { NothingOrdered(incoming0); }
    while ready != []
      invariant Worklist(incoming0, incoming, ready, visited) && OrderSoFar(incoming0, visited)
      decreases |keys| - |visited|
    {
      ghost var stack, before := ready, visited;
      var current := ready[|ready| - 1];
      ready := ready[..|ready| - 1];
      assert stack == ready + [current];
      Visiting(keys, incoming0, incoming, ready, visited, current);
      visited := visited + [current];
      incoming, ready := Release(keys, incoming0, incoming, ready, before, current);
    }
    left := incoming;
  }

  lemma {:induction false} NothingOrdered(incoming0: map<string, set<string>>)
    ensures OrderSoFar(incoming0, [])
  {
  }

  lemma {:induction false} Visiting(keys: seq<string>, incoming0: map<string, set<string>>,
      incoming: map<string, set<string>>,
                                    popped: seq<string>, visited: seq<string>, current: string)
    requires NoRepeats(keys) && (forall id :: id in keys <==> id in incoming0)
    requires Worklist(incoming0, incoming, popped + [current], visited) && OrderSoFar(incoming0, visited)
    ensures OrderSoFar(incoming0, visited + [current]) && |visited| < |keys|
  {
    var all := visited + (popped + [current]);
    assert all[|all| - 1] == current;
    forall k | 0 <= k < |visited| ensures visited[k] != current && visited[k] in keys { assert all[k] == visited[k]; }
    forall i, j | 0 <= i < j < |visited| ensures visited[i] != visited[j] {
      assert all[i] == visited[i] && all[j] == visited[j];
    }
    RoomLeft(keys, visited, current);
    var more := visited + [current];
    assert incoming[current] == incoming0[current] - Elements(visited);
    assert incoming[current] == {};
    forall d | d in incoming0[current] ensures d in Elements(visited) { assert d !in incoming[current]; }
    forall k | 0 <= k < |more| && more[k] in incoming0 ensures incoming0[more[k]] <= Elements(more[..k]) {
      if k < |visited| {
        assert more[..k] == visited[..k] && more[k] == visited[k];
      } else {
        assert more[..k] == visited;
      }
    }
  }

  method FirstReady(keys: seq<string>, incoming: map<string, set<string>>) returns (ready: seq<string>)
    requires NoRepeats(keys) && (forall id :: id in keys <==> id in incoming)
    ensures Worklist(incoming, incoming, ready, [])
  {
    ready := [];
    for i := 0 to |keys|
      invariant NoRepeats(ready)
      invariant forall id :: id in ready <==> id in keys[..i] && incoming[id] == {}
    {
      assert keys[..i + 1] == keys[..i] + [keys[i]];
      if incoming[keys[i]] == {} {
        ready := ready + [keys[i]];
      }
    }
    assert keys[..|keys|] == keys && [] + ready == ready;
  }
}
