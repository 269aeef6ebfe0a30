/** The capped graph of which song followed which in a listening session. */
module Transitions {
  import opened Wrappers

  datatype Edge = Edge(user: int, from: string, to: string)

  datatype Stats = Stats(positive: int, skipped: int, at: int)

  type Graph = map<Edge, Stats>

  const MAX_OUTGOING := 50

  function Group(graph: Graph, user: int, from: string): set<Edge> {
    set e | e in graph && e.user == user && e.from == from
  }

  function Score(stats: Stats): int {
    stats.positive * 2 - stats.skipped
  }

  // The order of the pruning query; rows equal in both columns may come in any order.
  predicate RanksAtLeast(a: Stats, b: Stats) {
    Score(a) > Score(b) || (Score(a) == Score(b) && a.at >= b.at)
  }

  function Observed(graph: Graph, edge: Edge, skip: bool, now: int): Graph {
    var was := if edge in graph then graph[edge] else Stats(0, 0, now);
    graph[edge := Stats(was.positive + if skip then 0 else 1, was.skipped + if skip then 1 else 0, now)]
  }

  // What deleting a group's rows past the first 50 may leave.
  ghost predicate Capped(before: Graph, after: Graph, user: int, from: string) {
    var group, kept := Group(before, user, from), Group(after, user, from);
    && after.Keys <= before.Keys
    && (forall e :: e in after ==> after[e] == before[e])
    && (forall e :: e in before && e !in group ==> e in after)
    && |kept| == (if |group| < MAX_OUTGOING then |group| else MAX_OUTGOING)
    && (forall k, d :: k in kept && d in group - kept ==> RanksAtLeast(before[k], before[d]))
  }

  // Every reachable graph: at most 50 outgoing edges, no self-loop, counts that were observed.
  ghost predicate Inv(graph: Graph) {
    && (forall user, from :: |Group(graph, user, from)| <= MAX_OUTGOING)
    && (forall e :: e in graph ==> GoodEdge(e, graph[e]))
  }

  predicate GoodEdge(edge: Edge, stats: Stats) {
    edge.from != edge.to && stats.positive >= 0 && stats.skipped >= 0 && stats.positive + stats.skipped >= 1
  }

  lemma {:induction false} LowestExists(graph: Graph, edges: set<Edge>) returns (lowest: Edge)
    requires edges != {} && edges <= graph.Keys
    ensures lowest in edges && forall e :: e in edges ==> RanksAtLeast(graph[e], graph[lowest])
    decreases |edges|
  {
    var e :| e in edges;
    if edges == {e} {
      lowest := e;
    } else {
      var rest := LowestExists(graph, edges - {e});
      assert edges == edges - {e} + {e};
      lowest := if RanksAtLeast(graph[e], graph[rest]) then rest else e;
    }
  }

  method Cap(graph: Graph, user: int, from: string) returns (capped: Graph)
    ensures Capped(graph, capped, user, from)
  {
    var group := Group(graph, user, from);
    var kept := group;
    while |kept| > MAX_OUTGOING
      invariant kept <= group && |kept| >= (if |group| < MAX_OUTGOING then |group| else MAX_OUTGOING)
      invariant forall k, d :: k in kept && d in group - kept ==> RanksAtLeast(graph[k], graph[d])
      decreases |kept|
    {
      ghost var one := LowestExists(graph, kept);
      var lowest :| lowest in kept && forall e :: e in kept ==> RanksAtLeast(graph[e], graph[lowest]);
      kept := kept - {lowest};
    }
    SubsetIsSmaller(kept, group);
    capped := graph - (group - kept);
    assert Group(capped, user, from) == kept;
  }

  lemma {:induction false} ObservedGroups(graph: Graph, edge: Edge, skip: bool, now: int, user: int, from: string)
    ensures Group(Observed(graph, edge, skip, now), user, from)
         == Group(graph, user, from) + if edge.user == user && edge.from == from then {edge} else {}
  {
  }

  // Counting one observation and capping its group keeps the invariant, and caps away at most
  // one edge, since the group was capped before.
  lemma {:induction false} ObservationKeepsInv(graph: Graph, edge: Edge, skip: bool, now: int, after: Graph)
    requires Inv(graph) && edge.from != edge.to
    requires Capped(Observed(graph, edge, skip, now), after, edge.user, edge.from)
    ensures Inv(after) && |Group(Observed(graph, edge, skip, now), edge.user, edge.from)| <= MAX_OUTGOING + 1
  {
    var observed := Observed(graph, edge, skip, now);
    forall user, from ensures |Group(after, user, from)| <= MAX_OUTGOING {
      ObservedGroups(graph, edge, skip, now, user, from);
      if user != edge.user || from != edge.from {
        SubsetIsSmaller(Group(after, user, from), Group(graph, user, from));
      }
    }
    ObservedGroups(graph, edge, skip, now, edge.user, edge.from);
    forall e | e in after ensures GoodEdge(e, after[e]) {
      assert after[e] == observed[e];
      if e in graph {
        assert GoodEdge(e, graph[e]);
      }
    }
  }

  // A user's edges are deleted when the user clears the history.
  function WithoutUser(graph: Graph, user: int): Graph {
    map e | e in graph && e.user != user :: graph[e]
  }

  lemma {:induction false} ClearKeepsInv(graph: Graph, user: int)
    requires Inv(graph)
    ensures Inv(WithoutUser(graph, user))
  {
    forall owner, from ensures |Group(WithoutUser(graph, user), owner, from)| <= MAX_OUTGOING {
      SubsetIsSmaller(Group(WithoutUser(graph, user), owner, from), Group(graph, owner, from));
    }
  }
}
