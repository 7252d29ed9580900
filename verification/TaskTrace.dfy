/** The decision graph around a Task, found breadth first along edges in either
    direction (sdf_core/api.py). */
module TaskTrace {
  import opened Results

  datatype Endpoint = Endpoint(kind: string, id: string)

  datatype Edge = Edge(id: nat, source: Endpoint, target: Endpoint)

  datatype Node = Node(kind: string, title: string)

  datatype Trace = Trace(nodes: map<string, Node>, edges: seq<Edge>)

  predicate Touches(e: Edge, v: Endpoint) { e.source == v || e.target == v }

  ghost predicate UniqueIds(edges: seq<Edge>) {
    forall i, j :: 0 <= i < j < |edges| ==> edges[i].id != edges[j].id
  }

  // ---- Reachability --------------------------------------------------------

  ghost predicate Joins(e: Edge, a: Endpoint, b: Endpoint) {
    (e.source == a && e.target == b) || (e.source == b && e.target == a)
  }

  ghost predicate Linked(edges: seq<Edge>, a: Endpoint, b: Endpoint) { exists e :: e in edges && Joins(e, a, b) }

  ghost predicate IsPath(edges: seq<Edge>, path: seq<Endpoint>) {
    path != [] && forall i :: 0 <= i < |path| - 1 ==> Linked(edges, path[i], path[i + 1])
  }

  ghost predicate Reachable(edges: seq<Edge>, a: Endpoint, b: Endpoint) {
    exists path :: IsPath(edges, path) && path[0] == a && path[|path| - 1] == b
  }

  lemma ReachesItself(edges: seq<Edge>, a: Endpoint)
    ensures Reachable(edges, a, a)
  {
    assert IsPath(edges, [a]) && [a][0] == a;
  }

  lemma ReachesOn(edges: seq<Edge>, a: Endpoint, b: Endpoint, e: Edge, c: Endpoint)
    requires Reachable(edges, a, b) && e in edges && Joins(e, b, c)
    ensures Reachable(edges, a, c)
  {
    var path :| IsPath(edges, path) && path[0] == a && path[|path| - 1] == b;
    var longer := path + [c];
    forall i | 0 <= i < |longer| - 1 ensures Linked(edges, longer[i], longer[i + 1]) {
      if i < |path| - 1 {
        assert Linked(edges, path[i], path[i + 1]);
      } else {
        assert Joins(e, longer[i], longer[i + 1]);
      }
    }
    assert longer[0] == a && longer[|longer| - 1] == c;
  }

  ghost predicate Closed(edges: seq<Edge>, s: set<Endpoint>) {
    forall e :: e in edges && (e.source in s || e.target in s) ==> e.source in s && e.target in s
  }

  lemma {:induction false} ClosedHoldsPaths(edges: seq<Edge>, s: set<Endpoint>, path: seq<Endpoint>)
    requires Closed(edges, s) && IsPath(edges, path) && path[0] in s
    ensures path[|path| - 1] in s
  {
    if |path| > 1 {
      assert Linked(edges, path[0], path[0 + 1]);
      var e :| e in edges && Joins(e, path[0], path[1]);
      assert IsPath(edges, path[1..]) by {
        forall i | 0 <= i < |path[1..]| - 1 ensures Linked(edges, path[1..][i], path[1..][i + 1]) {
          assert Linked(edges, path[i + 1], path[i + 1 + 1]);
        }
      }
      ClosedHoldsPaths(edges, s, path[1..]);
    }
  }

  // A closed set of reachable endpoints around the start is all of them.
  lemma ClosedIsReachable(edges: seq<Edge>, start: Endpoint, s: set<Endpoint>, v: Endpoint)
    requires Closed(edges, s) && start in s && (forall u :: u in s ==> Reachable(edges, start, u))
    ensures v in s <==> Reachable(edges, start, v)
  {
    if Reachable(edges, start, v) {
      var path :| IsPath(edges, path) && path[0] == start && path[|path| - 1] == v;
      ClosedHoldsPaths(edges, s, path);
    }
  }

  // ---- The search ----------------------------------------------------------

  function EndpointsOf(edges: seq<Edge>): set<Endpoint> {
    (set e | e in edges :: e.source) + (set e | e in edges :: e.target)
  }

  ghost predicate Distinct<T(!new)>(s: seq<T>) { forall i, j :: 0 <= i < j < |s| ==> s[i] != s[j] }

  ghost predicate Around(e: Edge, done: set<Endpoint>) { e.source in done || e.target in done }

  // What is seen is done or queued, once, and reachable.
  ghost predicate FrontierOk(edges: seq<Edge>, start: Endpoint, seen: set<Endpoint>, queue: seq<Endpoint>,
                             done: set<Endpoint>)
  {
    && start in seen && Distinct(queue)
    && (forall v :: v in seen <==> v in done || v in queue)
    && (forall v :: v in queue ==> v !in done)
    && (forall v :: v in seen ==> Reachable(edges, start, v))
    && seen <= EndpointsOf(edges) + {start}
  }

  // The edges found so far, once each, by their ids.
  ghost predicate FoundOk(found: seq<Edge>, seenEdges: set<nat>) {
    Distinct(found) && (forall id :: id in seenEdges <==> exists e :: e in found && e.id == id)
  }

  lemma OneEdgePerId(edges: seq<Edge>, a: Edge, b: Edge)
    requires UniqueIds(edges) && a in edges && b in edges && a.id == b.id
    ensures a == b
  {
    var i :| 0 <= i < |edges| && edges[i] == a;
    var j :| 0 <= j < |edges| && edges[j] == b;
    assert i == j;
  }

  lemma EnqueueKeepsFrontier(edges: seq<Edge>, start: Endpoint, seen: set<Endpoint>, queue: seq<Endpoint>,
                             done: set<Endpoint>, v: Endpoint, edge: Edge, other: Endpoint)
    requires FrontierOk(edges, start, seen, queue, done) && v in done && other !in seen
    requires edge in edges && Joins(edge, v, other)
    ensures FrontierOk(edges, start, seen + {other}, queue + [other], done)
  {
    ReachesOn(edges, start, v, edge, other);
  }

  lemma RecordKeepsFound(found: seq<Edge>, seenEdges: set<nat>, edge: Edge)
    requires FoundOk(found, seenEdges) && edge.id !in seenEdges
    ensures FoundOk(found + [edge], seenEdges + {edge.id})
  {
    assert forall i :: 0 <= i < |found| ==> found[i] in found;
    forall id ensures id in seenEdges + {edge.id} <==> exists e :: e in found + [edge] && e.id == id {
      assert edge in found + [edge];
      if e :| e in found && e.id == id {
        assert e in found + [edge];
      }
    }
  }

  // The edges around `done` and, of those before `k`, at `v`.
  ghost predicate Recorded(edges: seq<Edge>, found: seq<Edge>, done: set<Endpoint>, v: Endpoint, k: nat)
    requires k <= |edges|
  {
    forall e :: e in found <==> (e in edges && Around(e, done)) || (e in edges[..k] && Touches(e, v))
  }

  lemma RecordNext(edges: seq<Edge>, found: seq<Edge>, found': seq<Edge>, done: set<Endpoint>, v: Endpoint, k: nat)
    requires k < |edges| && Recorded(edges, found, done, v, k)
    requires if Touches(edges[k], v) then (edges[k] in found && found' == found) || found' == found + [edges[k]]
             else found' == found
    ensures Recorded(edges, found', done, v, k + 1)
  {
    assert edges[..k + 1] == edges[..k] + [edges[k]];
  }

  lemma RecordStart(edges: seq<Edge>, found: seq<Edge>, done: set<Endpoint>, v: Endpoint)
    requires forall e :: e in found <==> e in edges && Around(e, done)
    ensures Recorded(edges, found, done, v, 0)
  {
  }

  lemma RecordedAreEdges(edges: seq<Edge>, found: seq<Edge>, done: set<Endpoint>, v: Endpoint, k: nat, e: Edge)
    requires k <= |edges| && Recorded(edges, found, done, v, k) && e in found
    ensures e in edges
  {
  }

  lemma RecordEnd(edges: seq<Edge>, found: seq<Edge>, done: set<Endpoint>, v: Endpoint)
    requires Recorded(edges, found, done, v, |edges|)
    ensures forall e :: e in found <==> e in edges && Around(e, done + {v})
  {
    assert edges[..|edges|] == edges;
  }

  // Both ends of the edges at `v` before `k` are seen.
  ghost predicate NeighboursSeen(edges: seq<Edge>, seen: set<Endpoint>, v: Endpoint, k: nat)
    requires k <= |edges|
  {
    forall i :: 0 <= i < k && Touches(edges[i], v) ==> edges[i].source in seen && edges[i].target in seen
  }

  lemma NoneToSee(edges: seq<Edge>, seen: set<Endpoint>, v: Endpoint)
    ensures NeighboursSeen(edges, seen, v, 0)
  {
  }

  lemma NextNeighbourSeen(edges: seq<Edge>, before: set<Endpoint>, seen: set<Endpoint>, v: Endpoint, k: nat)
    requires k < |edges| && NeighboursSeen(edges, before, v, k) && before <= seen
    requires Touches(edges[k], v) ==> edges[k].source in seen && edges[k].target in seen
    ensures NeighboursSeen(edges, seen, v, k + 1)
  {
  }

  // An edge at `v` that was recorded before, or whose other end was just queued.
  lemma EdgeSeen(edges: seq<Edge>, seen0: set<Endpoint>, before: set<Endpoint>, seen: set<Endpoint>, found: seq<Edge>,
                 done: set<Endpoint>, v: Endpoint, k: nat)
    requires k < |edges| && Recorded(edges, found, done, v, k) && NeighboursSeen(edges, before, v, k)
    requires seen0 <= before <= seen && Touches(edges[k], v)
    requires forall e :: e in edges && Around(e, done) ==> e.source in seen0 && e.target in seen0
    requires edges[k] in found || (edges[k].source in seen && edges[k].target in seen)
    ensures edges[k].source in seen && edges[k].target in seen
  {
    var edge := edges[k];
    if edge in found && edge in edges[..k] {
      var i :| 0 <= i < k && edges[i] == edge;
    }
  }

  lemma AllNeighboursSeen(edges: seq<Edge>, seen0: set<Endpoint>, seen: set<Endpoint>, done: set<Endpoint>, v: Endpoint)
    requires NeighboursSeen(edges, seen, v, |edges|) && seen0 <= seen
    requires forall e :: e in edges && Around(e, done) ==> e.source in seen0 && e.target in seen0
    ensures forall e :: e in edges && Around(e, done + {v}) ==> e.source in seen && e.target in seen
  {
    forall e | e in edges && Around(e, done + {v}) ensures e.source in seen && e.target in seen {
      var i :| 0 <= i < |edges| && edges[i] == e;
      assert Around(e, done) || Touches(edges[i], v);
    }
  }

  // One popped endpoint: its edges are recorded and its neighbours queued.
  method Visit(edges: seq<Edge>, ghost start: Endpoint, v: Endpoint, ghost done: set<Endpoint>, seen0: set<Endpoint>,
               queue0: seq<Endpoint>, found0: seq<Edge>, seenEdges0: set<nat>)
    returns (seen: set<Endpoint>, queue: seq<Endpoint>, found: seq<Edge>, seenEdges: set<nat>)
    requires UniqueIds(edges) && v !in done && v !in queue0
    requires FrontierOk(edges, start, seen0, queue0, done + {v}) && FoundOk(found0, seenEdges0)
    requires forall e :: e in found0 <==> e in edges && Around(e, done)
    requires forall e :: e in edges && Around(e, done) ==> e.source in seen0 && e.target in seen0
    ensures FrontierOk(edges, start, seen, queue, done + {v}) && FoundOk(found, seenEdges)
    ensures forall e :: e in found <==> e in edges && Around(e, done + {v})
    ensures forall e :: e in edges && Around(e, done + {v}) ==> e.source in seen && e.target in seen
    ensures seen0 <= seen && (seen == seen0 ==> queue == queue0)
  {
    assert v in seen0;
    hide Recorded, FrontierOk, NeighboursSeen;
    NoneToSee(edges, seen0, v);
    seen, queue, found, seenEdges := seen0, queue0, found0, seenEdges0;
    RecordStart(edges, found, done, v);
    for k := 0 to |edges|
      invariant FrontierOk(edges, start, seen, queue, done + {v}) && FoundOk(found, seenEdges)
      invariant Recorded(edges, found, done, v, k)
      invariant NeighboursSeen(edges, seen, v, k)
      invariant v in seen && seen0 <= seen && (seen == seen0 ==> queue == queue0)
    {
      var edge := edges[k];
      ghost var before, before0 := found, seen;
      if Touches(edge, v) {
        if edge.id in seenEdges {
          var e :| e in found && e.id == edge.id;
          RecordedAreEdges(edges, found, done, v, k, e);
          OneEdgePerId(edges, e, edge);
        } else {
          RecordKeepsFound(found, seenEdges, edge);
          seenEdges := seenEdges + {edge.id};
          found := found + [edge];
          var other := if edge.target == v then edge.source else edge.target;
          if other !in seen {
            EnqueueKeepsFrontier(edges, start, seen, queue, done + {v}, v, edge, other);
            seen := seen + {other};
            queue := queue + [other];
          }
        }
        EdgeSeen(edges, seen0, before0, seen, before, done, v, k);
      }
      NextNeighbourSeen(edges, before0, seen, v, k);
      RecordNext(edges, before, found, done, v, k);
    }
    RecordEnd(edges, found, done, v);
    AllNeighboursSeen(edges, seen0, seen, done, v);
  }

  // The nodes collected are the stored ones among the endpoints done.
  ghost predicate Collected(collected: map<string, Node>, nodes: map<string, Node>, done: set<Endpoint>) {
    && (forall id :: id in collected <==> id in nodes && exists v :: v in done && v.id == id)
    && (forall id :: id in collected ==> collected[id] == nodes[id])
  }

  lemma CollectNext(collected: map<string, Node>, nodes: map<string, Node>, done: set<Endpoint>, v: Endpoint)
    requires Collected(collected, nodes, done)
    ensures Collected(if v.id in nodes then collected[v.id := nodes[v.id]] else collected, nodes, done + {v})
  {
    assert v in done + {v};
    assert forall u :: u in done ==> u in done + {v};
  }

  // When exactly the reachable endpoints are done.
  lemma CollectedIsTrace(edges: seq<Edge>, start: Endpoint, collected: map<string, Node>, nodes: map<string, Node>,
                         done: set<Endpoint>)
    requires Collected(collected, nodes, done) && forall v :: v in done <==> Reachable(edges, start, v)
    ensures forall id :: id in collected <==> id in nodes && exists kind :: Reachable(edges, start, Endpoint(kind, id))
  {
    hide Reachable;
    forall id | id in nodes
      ensures (exists v :: v in done && v.id == id) <==> exists kind :: Reachable(edges, start, Endpoint(kind, id))
    {
      if v :| v in done && v.id == id {
        assert v == Endpoint(v.kind, id);
      }
      if kind :| Reachable(edges, start, Endpoint(kind, id)) {
        assert Endpoint(kind, id) in done;
      }
    }
  }

  // Nothing is queued any more: what is seen is the component.
  lemma SearchIsOver(edges: seq<Edge>, start: Endpoint, seen: set<Endpoint>, done: set<Endpoint>)
    requires FrontierOk(edges, start, seen, [], done)
    requires forall e :: e in edges && Around(e, done) ==> e.source in seen && e.target in seen
    ensures seen == done && forall v :: v in done <==> Reachable(edges, start, v)
  {
    hide Reachable;
    assert seen == done;
    forall v ensures v in done <==> Reachable(edges, start, v) {
      ClosedIsReachable(edges, start, done, v);
    }
  }

  // Exactly the stored nodes and exactly the edges of the start's component.
  ghost predicate IsTrace(edges: seq<Edge>, nodes: map<string, Node>, start: Endpoint, t: Trace) {
    && (forall id :: id in t.nodes <==> id in nodes && exists kind :: Reachable(edges, start, Endpoint(kind, id)))
    && (forall id :: id in t.nodes ==> t.nodes[id] == nodes[id])
    && Distinct(t.edges)
    && (forall e :: e in t.edges <==> e in edges && Reachable(edges, start, e.source))
    && (forall e :: e in t.edges <==> e in edges && Reachable(edges, start, e.target))
  }

  // The edges found are those around the endpoints done, whose ends are seen.
  ghost predicate FoundAround(edges: seq<Edge>, found: seq<Edge>, done: set<Endpoint>, seen: set<Endpoint>) {
    && (forall e :: e in found <==> e in edges && Around(e, done))
    && (forall e :: e in edges && Around(e, done) ==> e.source in seen && e.target in seen)
  }

  lemma SearchStarts(edges: seq<Edge>, nodes: map<string, Node>, start: Endpoint)
    ensures FrontierOk(edges, start, {start}, [start], {}) && FoundOk([], {})
    ensures FoundAround(edges, [], {}, {start}) && Collected(map[], nodes, {})
  {
    ReachesItself(edges, start);
    hide Reachable;
  }

  // One endpoint is taken from the queue.
  lemma Popped(edges: seq<Edge>, start: Endpoint, seen: set<Endpoint>, queue: seq<Endpoint>, done: set<Endpoint>)
    requires FrontierOk(edges, start, seen, queue, done) && queue != []
    ensures queue[0] !in done && queue[0] !in queue[1..]
    ensures FrontierOk(edges, start, seen, queue[1..], done + {queue[0]})
  {
    hide Reachable;
    assert queue == [queue[0]] + queue[1..];
  }

  lemma SearchShrinks(edges: seq<Edge>, start: Endpoint, before: set<Endpoint>, seen: set<Endpoint>,
                      queue: seq<Endpoint>, done: set<Endpoint>)
    requires FrontierOk(edges, start, seen, queue, done) && before < seen
    ensures EndpointsOf(edges) + {start} - seen < EndpointsOf(edges) + {start} - before
  {
    hide Reachable, EndpointsOf;
    var x :| x in seen && x !in before;
    assert x in EndpointsOf(edges) + {start} - before;
  }

  lemma TraceIsExact(edges: seq<Edge>, nodes: map<string, Node>, start: Endpoint, t: Trace, seen: set<Endpoint>,
                     done: set<Endpoint>, seenEdges: set<nat>)
    requires FrontierOk(edges, start, seen, [], done) && FoundOk(t.edges, seenEdges)
    requires FoundAround(edges, t.edges, done, seen) && Collected(t.nodes, nodes, done)
    ensures IsTrace(edges, nodes, start, t)
  {
    hide Reachable, FrontierOk;
    SearchIsOver(edges, start, seen, done);
    CollectedIsTrace(edges, start, t.nodes, nodes, done);
  }

  // `None` when there is no such Task.
  method GetTaskTrace(tasks: set<string>, nodes: map<string, Node>, edges: seq<Edge>, task: string)
    returns (trace: Option<Trace>)
    requires UniqueIds(edges)
    ensures trace.Some? <==> task in tasks
    ensures trace.Some? ==> IsTrace(edges, nodes, Endpoint("task", task), trace.value)
  {
    hide Collected, FrontierOk, FoundOk, IsTrace, EndpointsOf;
    if task !in tasks { return None; }
    var start := Endpoint("task", task);
    var collected: map<string, Node> := map[];
    var found: seq<Edge> := [];
    var seenEdges: set<nat> := {};
    var queue := [start];
    var seen := {start};
    ghost var done: set<Endpoint> := {};
    SearchStarts(edges, nodes, start);
    while queue != []
      invariant FrontierOk(edges, start, seen, queue, done) && FoundOk(found, seenEdges)
      invariant FoundAround(edges, found, done, seen) && Collected(collected, nodes, done)
      decreases EndpointsOf(edges) + {start} - seen, |queue|
    {
      var v := queue[0];
      ghost var before := seen;
      Popped(edges, start, seen, queue, done);
      queue := queue[1..];
      CollectNext(collected, nodes, done, v);
      if v.id in nodes {
        collected := collected[v.id := nodes[v.id]];
      }
      seen, queue, found, seenEdges := Visit(edges, start, v, done, seen, queue, found, seenEdges);
      done := done + {v};
      if seen != before { SearchShrinks(edges, start, before, seen, queue, done); }
    }
    trace := Some(Trace(collected, found));
    TraceIsExact(edges, nodes, start, trace.value, seen, done, seenEdges);
  }
}
