// crates/montre-daemon/src/state.rs: the coupler graph. A coupler leads from a master
// process to a follower; the graph of all couplers must stay without cycles.
module Couplers {
  import opened Core

  type ProcessId = nat
  type CouplerId = nat

  datatype CouplerKind =
    | SentenceMirror | Alignment(name: string) | KwicSelection
    | DocPickerSelection | NamedResultsSelection | ConlluView

  datatype Coupler = Coupler(id: CouplerId, master: ProcessId, follower: ProcessId, kind: CouplerKind)

  type Graph = map<CouplerId, Coupler>

  ghost predicate Edge(g: Graph, a: ProcessId, b: ProcessId) {
    exists i :: i in g && g[i].master == a && g[i].follower == b
  }

  ghost predicate Path(g: Graph, p: seq<ProcessId>) {
    && p != []
    && (|p| > 1 ==> Edge(g, p[0], p[1]) && Path(g, p[1..]))
  }

  // b can be reached from a, in any number of steps.
  ghost predicate Reaches(g: Graph, a: ProcessId, b: ProcessId) {
    exists p :: Path(g, p) && p[0] == a && p[|p| - 1] == b
  }

  // No process can be reached from one that it leads.
  ghost predicate Acyclic(g: Graph) {
    forall a, b :: Edge(g, a, b) ==> !Reaches(g, b, a)
  }

  // ---------------------------------------------------------------------------------
  // Reachability.

  lemma ReachesSelf(g: Graph, a: ProcessId)
    ensures Reaches(g, a, a)
  {
    assert Path(g, [a]);
  }

  lemma StepReaches(g: Graph, a: ProcessId, b: ProcessId, c: ProcessId)
    requires Edge(g, a, b) && Reaches(g, b, c)
    ensures Reaches(g, a, c)
  {
    var p :| Path(g, p) && p[0] == b && p[|p| - 1] == c;
    var q := [a] + p;
    assert q[1..] == p;
    assert Path(g, q) && q[|q| - 1] == c;
  }

  lemma {:induction false} PathThenReaches(g: Graph, p: seq<ProcessId>, c: ProcessId)
    requires Path(g, p) && Reaches(g, p[|p| - 1], c)
    ensures Reaches(g, p[0], c)
  {
    if |p| > 1 {
      PathThenReaches(g, p[1..], c);
      StepReaches(g, p[0], p[1], c);
    }
  }

  lemma ReachesTransitive(g: Graph, a: ProcessId, b: ProcessId, c: ProcessId)
    requires Reaches(g, a, b) && Reaches(g, b, c)
    ensures Reaches(g, a, c)
  {
    var p :| Path(g, p) && p[0] == a && p[|p| - 1] == b;
    PathThenReaches(g, p, c);
  }

  // A set that holds a and every follower of its members holds all that a reaches.
  lemma {:induction false} ClosedUnderPaths(g: Graph, s: set<ProcessId>, p: seq<ProcessId>)
    requires forall x, y :: x in s && Edge(g, x, y) ==> y in s
    requires Path(g, p) && p[0] in s
    ensures p[|p| - 1] in s
  {
    if |p| > 1 {
      ClosedUnderPaths(g, s, p[1..]);
    }
  }

  // ---------------------------------------------------------------------------------
  // coupler_creates_cycle

  // Every process the search can come to.
  ghost function Nodes(g: Graph, start: ProcessId): set<ProcessId> {
    {start} + set i | i in g :: g[i].follower
  }

  // What was seen or is still on the stack.
  ghost predicate Seen(visited: set<ProcessId>, stack: seq<ProcessId>, x: ProcessId) {
    x in visited || x in stack
  }

  // Everything seen can be reached; what was visited is not the goal, and its followers were seen.
  ghost predicate Searched(g: Graph, start: ProcessId, goal: ProcessId, visited: set<ProcessId>,
      stack: seq<ProcessId>)
  {
    && Seen(visited, stack, start)
    && (forall x :: Seen(visited, stack, x) ==> x in Nodes(g, start) && Reaches(g, start, x))
    && goal !in visited
    && forall x, y :: x in visited && Edge(g, x, y) ==> Seen(visited, stack, y)
  }

  // Pushes the followers of one process, in any order of the couplers.
  method PushFollowers(g: Graph, current: ProcessId, stack: seq<ProcessId>) returns (stack': seq<ProcessId>)
    ensures forall y :: y in stack' <==> y in stack || Edge(g, current, y)
  {
    stack' := stack;
    var rest := g.Keys;
    ghost var done: set<CouplerId> := {};
    while rest != {}
      invariant rest + done == g.Keys
      invariant forall y :: y in stack' <==>
        y in stack || exists i :: i in done && g[i].master == current && g[i].follower == y
      decreases |rest|
    {
      var i :| i in rest;
      if g[i].master == current {
        stack' := stack' + [g[i].follower];
      }
      rest, done := rest - {i}, done + {i};
    }
  }

  lemma SearchStep(g: Graph, start: ProcessId, goal: ProcessId, visited: set<ProcessId>,
                   rest: seq<ProcessId>, current: ProcessId, next: seq<ProcessId>)
    requires Searched(g, start, goal, visited, rest + [current]) && current != goal
    requires forall y :: y in next <==> y in rest || Edge(g, current, y)
    ensures Searched(g, start, goal, visited + {current}, next)
  {
    assert Seen(visited, rest + [current], current);
    forall y | Edge(g, current, y)
      ensures y in Nodes(g, start) && Reaches(g, start, y)
    {
      ReachesSelf(g, y);
      StepReaches(g, current, y, y);
      ReachesTransitive(g, start, current, y);
    }
    forall x | Seen(visited + {current}, next, x)
      ensures x in Nodes(g, start) && Reaches(g, start, x)
    {
      assert x in rest ==> Seen(visited, rest + [current], x);
      assert x in visited ==> Seen(visited, rest + [current], x);
    }
    forall x, y | x in visited + {current} && Edge(g, x, y)
      ensures Seen(visited + {current}, next, y)
    {
      assert x in visited ==> Seen(visited, rest + [current], y);
    }
    assert start in visited || start in rest + [current];
  }

  lemma SearchSkip(g: Graph, start: ProcessId, goal: ProcessId, visited: set<ProcessId>, rest: seq<ProcessId>,
      current: ProcessId)
    requires Searched(g, start, goal, visited, rest + [current]) && current in visited
    ensures Searched(g, start, goal, visited, rest)
  {
    assert forall x :: Seen(visited, rest, x) <==> Seen(visited, rest + [current], x);
  }

  lemma Popped(g: Graph, start: ProcessId, goal: ProcessId, visited: set<ProcessId>, rest: seq<ProcessId>,
      current: ProcessId)
    requires Searched(g, start, goal, visited, rest + [current])
    ensures current in Nodes(g, start) && Reaches(g, start, current)
  {
    assert Seen(visited, rest + [current], current);
  }

  // True exactly when the follower already leads to the master.
  method CreatesCycle(g: Graph, master: ProcessId, follower: ProcessId) returns (r: bool)
    ensures r <==> Reaches(g, follower, master)
  {
    if master == follower {
      ReachesSelf(g, master);
      return true;
    }
    var stack := [follower];
    var visited: set<ProcessId> := {};
    ReachesSelf(g, follower);
    while stack != []
      invariant Searched(g, follower, master, visited, stack)
      invariant visited <= Nodes(g, follower)
      decreases |Nodes(g, follower) - visited|, |stack|
    {
      var current := stack[|stack| - 1];
      ghost var rest := stack[..|stack| - 1];
      assert stack == rest + [current];
      Popped(g, follower, master, visited, rest, current);
      stack := stack[..|stack| - 1];
      if current in visited {
        SearchSkip(g, follower, master, visited, rest, current);
      } else {
        if current == master {
          return true;
        }
        stack := PushFollowers(g, current, stack);
        SearchStep(g, follower, master, visited, rest, current, stack);
        Shrinks(Nodes(g, follower), visited, current);
        visited := visited + {current};
      }
    }
    NothingLeft(g, follower, master, visited);
    r := false;
  }

  lemma Shrinks(all: set<ProcessId>, visited: set<ProcessId>, x: ProcessId)
    requires x in all && x !in visited
    ensures |all - (visited + {x})| < |all - visited|
  {
    assert all - visited == (all - (visited + {x})) + {x};
  }

  lemma NothingLeft(g: Graph, start: ProcessId, goal: ProcessId, visited: set<ProcessId>)
    requires Searched(g, start, goal, visited, [])
    ensures !Reaches(g, start, goal)
  {
    if Reaches(g, start, goal) {
      var p :| Path(g, p) && p[0] == start && p[|p| - 1] == goal;
      assert Seen(visited, [], start);
      forall x, y | x in visited && Edge(g, x, y)
        ensures y in visited
      {
        assert Seen(visited, [], y);
      }
      ClosedUnderPaths(g, visited, p);
    }
  }

  // ---------------------------------------------------------------------------------
  // Adding and removing couplers.

  lemma {:induction false} SmallerPath(g: Graph, h: Graph, p: seq<ProcessId>)
    requires forall i :: i in g ==> i in h && h[i] == g[i]
    requires Path(g, p)
    ensures Path(h, p)
  {
    if |p| > 1 {
      SmallerPath(g, h, p[1..]);
      var i :| i in g && g[i].master == p[0] && g[i].follower == p[1];
      assert i in h && h[i].master == p[0];
    }
  }

  // Dropping couplers cannot close a cycle.
  lemma SubgraphAcyclic(g: Graph, h: Graph)
    requires Acyclic(h) && forall i :: i in g ==> i in h && h[i] == g[i]
    ensures Acyclic(g)
  {
    forall a, b | Edge(g, a, b)
      ensures !Reaches(g, b, a)
    {
      var i :| i in g && g[i].master == a && g[i].follower == b;
      assert Edge(h, a, b) by { assert i in h && h[i] == g[i]; }
      if Reaches(g, b, a) {
        var p :| Path(g, p) && p[0] == b && p[|p| - 1] == a;
        SmallerPath(g, h, p);
      }
    }
  }

  // With one more coupler, a path either was there or passes through the new one.
  lemma {:induction false} PathWithNew(g: Graph, c: Coupler, id: CouplerId, p: seq<ProcessId>)
    requires id !in g && Path(g[id := c], p)
    ensures Reaches(g, p[0], p[|p| - 1]) || (Reaches(g, p[0], c.master) && Reaches(g, c.follower, p[|p| - 1]))
  {
    if |p| == 1 {
      ReachesSelf(g, p[0]);
    } else {
      PathWithNew(g, c, id, p[1..]);
      var i :| i in g[id := c] && g[id := c][i].master == p[0] && g[id := c][i].follower == p[1];
      if i == id {
        ReachesSelf(g, p[0]);
      } else {
        assert Edge(g, p[0], p[1]);
        if Reaches(g, p[1], p[|p| - 1]) {
          StepReaches(g, p[0], p[1], p[|p| - 1]);
        } else {
          StepReaches(g, p[0], p[1], c.master);
        }
      }
    }
  }

  // A coupler may be added exactly when its follower does not already lead to its master.
  lemma AddedAcyclicIff(g: Graph, c: Coupler, id: CouplerId)
    requires Acyclic(g) && id !in g
    ensures Acyclic(g[id := c]) <==> !Reaches(g, c.follower, c.master)
  {
    var h := g[id := c];
    assert Edge(h, c.master, c.follower) by { assert id in h; }
    if Reaches(g, c.follower, c.master) {
      var p :| Path(g, p) && p[0] == c.follower && p[|p| - 1] == c.master;
      SmallerPath(g, h, p);
      assert Reaches(h, c.follower, c.master);
    } else {
      forall a, b | Edge(h, a, b)
        ensures !Reaches(h, b, a)
      {
        NoCycleThrough(g, c, id, a, b);
      }
    }
  }

  lemma NoCycleThrough(g: Graph, c: Coupler, id: CouplerId, a: ProcessId, b: ProcessId)
    requires Acyclic(g) && id !in g && !Reaches(g, c.follower, c.master) && Edge(g[id := c], a, b)
    ensures !Reaches(g[id := c], b, a)
  {
    var h := g[id := c];
    if Reaches(h, b, a) {
      var p :| Path(h, p) && p[0] == b && p[|p| - 1] == a;
      PathWithNew(g, c, id, p);
      var i :| i in h && h[i].master == a && h[i].follower == b;
      if i != id {
        assert Edge(g, a, b);
        StepReaches(g, a, b, c.master);
        ReachesTransitive(g, c.follower, a, c.master);
      }
    }
  }
}
