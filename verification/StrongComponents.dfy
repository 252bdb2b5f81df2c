/** `_strong_components` of the architecture inventory: Tarjan's search over the imports. */
module StrongComponents {
  import opened Orders
  import opened Graphs
  import opened Search

  /** `ImportEdge`: one module imports another, perhaps for type checking only. */
  datatype Edge = Edge(importer: Name, imported: Name, typeOnly: bool)

  ghost function GraphOf(names: seq<Name>, edges: seq<Edge>): Graph {
    Graph(Elements(names), set e | e in edges :: (e.importer, e.imported))
  }

  /** `adjacency` of the source: for each module the list of what it imports. */
  ghost predicate ListsImports(g: Graph, adjacency: map<Name, seq<Name>>) {
    && adjacency.Keys == g.nodes
    && forall a, b :: a in adjacency ==> (b in adjacency[a] <==> (a, b) in g.links)
  }

  /** The variables that the nested `visit` closes over. */
  class Tarjan {
    const adjacency: map<Name, seq<Name>>
    var index: nat
    var indexes: map<Name, nat>
    var lowLinks: map<Name, nat>
    var stack: seq<Name>
    var onStack: set<Name>
    var components: seq<seq<Name>>
    ghost const g: Graph
    ghost var open: set<Name>
    ghost var popped: seq<set<Name>>

    ghost function Now(): State
      reads this
    {
      State(index, indexes, lowLinks, stack, onStack, components, open, popped)
    }

    ghost predicate Ready() {
      WellFormed(g) && ListsImports(g, adjacency)
    }

    constructor (adjacency: map<Name, seq<Name>>, ghost g: Graph)
      requires WellFormed(g) && ListsImports(g, adjacency)
      ensures this.adjacency == adjacency && this.g == g && Ready()
      ensures Now() == State(0, map[], map[], [], {}, [], {}, [])
    {
      this.adjacency, this.g := adjacency, g;
      index, indexes, lowLinks := 0, map[], map[];
      stack, onStack, components := [], {}, [];
      open, popped := {}, [];
    }

    /** The loop over `sorted(adjacency)`: everything is visited, the stack ends empty, and
        the popped segments, single modules included, partition the modules into components. */
    method VisitAll(names: seq<Name>)
      requires Ready() && Elements(names) == g.nodes
      requires Now() == State(0, map[], map[], [], {}, [], {}, [])
      modifies this
      ensures stack == [] && onStack == {} && indexes.Keys == g.nodes
      ensures Recorded(g, Now()) && Union(popped) == g.nodes
    {
      hide Numbered, Explored, Linked, Recorded, LowLinksKept, LowIsReached, LowCovers, Reach;
      StartInv(g);
      var i := 0;
      while i < |names|
        invariant 0 <= i <= |names|
        invariant Inv(g, Now()) && open == {}
        invariant Elements(names[..i]) <= indexes.Keys
      {
        assert names[i] in Elements(names);
        assert Elements(names[..i + 1]) == Elements(names[..i]) + {names[i]};
        if names[i] !in indexes {
          Visit(names[i]);
        }
        i := i + 1;
      }
      assert names[..i] == names;
      NothingOpen(g, Now());
    }

    /** The nested `visit`. */
    method Visit(name: Name)
      requires Ready() && Inv(g, Now())
      requires name in g.nodes && name !in indexes
      requires forall a :: a in open ==> Reach(g, a, name)
      modifies this
      ensures Visited(g, old(Now()), name, Now())
      ensures lowLinks[name] == indexes[name] <==> FirstOfComponent(g, Now(), name)
      decreases g.nodes - indexes.Keys, 0
    {
      hide Inv, Numbered, Explored, Linked, Recorded, LowLinksKept, LowIsReached, LowCoversSeen, LowCovers,
        Reach, Visited, FirstOfComponent, Extends, Framed, Visiting;
      ghost var before := Now();
      EnterKeeps(g, before, name);
      indexes := indexes[name := index];
      lowLinks := lowLinks[name := index];
      index := index + 1;
      stack := stack + [name];
      onStack := onStack + {name};
      open := open + {name};
      assert Now() == Enter(before, name);

      var targets := adjacency[name];
      var i := 0;
      assert Elements(targets[..0]) == {};
      while i < |targets|
        invariant 0 <= i <= |targets|
        invariant Visiting(g, before, name, Elements(targets[..i]), Now())
      {
        VisitingGrows(g, before, name, Elements(targets[..i]), Now());
        Follow(name, targets[i], before, Elements(targets[..i]));
        assert Elements(targets[..i + 1]) == Elements(targets[..i]) + {targets[i]};
        i := i + 1;
      }
      assert targets[..i] == targets;
      Close(name, before, Elements(targets));
    }

    /** One round of the loop over the imports of `name`. */
    method Follow(name: Name, target: Name, ghost before: State, ghost seen: set<Name>)
      requires Ready() && Visiting(g, before, name, seen, Now())
      requires (name, target) in g.links
      modifies this
      ensures Visiting(g, before, name, seen + {target}, Now())
      decreases g.nodes - indexes.Keys, 1
    {
      hide Inv, Numbered, Explored, Linked, Recorded, Extends, LowIsReached, LowCoversSeen, LowCovers, Reach;
      ghost var t := Now();
      if target !in indexes {
        OpenReachTarget(g, before, name, t, target);
        Visit(target);
        ghost var u := Now();
        TargetVisited(g, before, name, seen, t, target, u);
        lowLinks := lowLinks[name := Min(lowLinks[name], lowLinks[target])];
        assert Now() == Lower(u, name, u.lowLinks[target]);
      } else {
        TargetKnown(g, before, name, seen, t, target);
        if target in onStack {
          lowLinks := lowLinks[name := Min(lowLinks[name], indexes[target])];
          assert Now() == Lower(t, name, t.indexes[target]);
        }
      }
    }

    /** The end of a visit: return, or pop the component and report it if it is large. */
    method Close(name: Name, ghost before: State, ghost seen: set<Name>)
      requires Ready() && Inv(g, before) && Visiting(g, before, name, seen, Now())
      requires forall b :: (name, b) in g.links ==> b in seen
      modifies this
      ensures Visited(g, before, name, Now())
      ensures lowLinks[name] == indexes[name] <==> FirstOfComponent(g, Now(), name)
    {
      hide Numbered, Explored, Linked, Recorded, Extends, LowLinksKept, LowIsReached, LowCoversSeen, LowCovers, Reach;
      ghost var t := Now();
      if lowLinks[name] != indexes[name] {
        LeaveKeeps(g, before, name, seen, t);
        open := open - {name};
        assert Now() == t.(open := t.open - {name});
        LowLinkMarksFirst(g, before, name, Now());
        return;
      }
      StackDistinct(g, t);
      var component := PopUntil(name, before);
      open, popped := open - {name}, popped + [Elements(component)];
      if |component| > 1 {
        components := components + [SortBy(NameLeq, component)];
      }
      PopKeeps(g, before, name, seen, t, component);
      assert Now() == Pop(before, t, component);
      LowLinkMarksFirst(g, before, name, Now());
    }

    /** The `while True` loop that takes the component of `name` off the stack. */
    method PopUntil(name: Name, ghost before: State) returns (component: seq<Name>)
      requires onStack == Elements(stack) && NoDuplicates(stack)
      requires before.stack + [name] <= stack && before.onStack == Elements(before.stack)
      modifies this`stack, this`onStack
      ensures stack == before.stack && onStack == before.onStack
      ensures NoDuplicates(component)
      ensures Elements(component) == Elements(old(stack)[|before.stack|..])
    {
      component := [];
      ghost var full, h := stack, |before.stack|;
      assert full[h] == name;
      while true
        invariant h < |stack| <= |full| && stack == full[..|stack|]
        invariant onStack == Elements(stack)
        invariant NoDuplicates(component)
        invariant Elements(component) == Elements(full[|stack|..])
        decreases |stack|
      {
        var target := stack[|stack| - 1];
        TakeTop(full, |stack|, component);
        stack := stack[..|stack| - 1];
        onStack := onStack - {target};
        component := component + [target];
        if target == name {
          break;
        }
      }
      assert |stack| == h;
      assert stack == before.stack;
    }
  }

  lemma TakeTop(full: seq<Name>, n: nat, component: seq<Name>)
    requires NoDuplicates(full) && 0 < n <= |full|
    requires NoDuplicates(component) && Elements(component) == Elements(full[n..])
    ensures NoDuplicates(component + [full[n - 1]])
    ensures Elements(component + [full[n - 1]]) == Elements(full[n - 1..])
    ensures Elements(full[..n - 1]) == Elements(full[..n]) - {full[n - 1]}
    ensures full[..n][..n - 1] == full[..n - 1]
  {
    assert full[n - 1..] == [full[n - 1]] + full[n..];
    assert full[..n] == full[..n - 1] + [full[n - 1]];
    assert forall a :: a in component <==> a in Elements(full[n..]);
    assert forall a :: a in component ==> a in full[n..];
    assert full[n - 1] !in full[n..];
    assert full[n - 1] !in full[..n - 1];
  }

  lemma StartInv(g: Graph)
    ensures Inv(g, State(0, map[], map[], [], {}, [], {}, []))
  {
  }

  /** Every module on the stack reaches an open one, so with none open the stack is empty. */
  lemma NothingOpen(g: Graph, s: State)
    requires Inv(g, s) && s.open == {}
    ensures s.stack == [] && s.onStack == {} && Done(s) == s.indexes.Keys
    ensures s.indexes.Keys <= g.nodes && Recorded(g, s) && Union(s.popped) == s.indexes.Keys
  {
    hide Recorded;
    assert |s.stack| > 0 ==> ReachesOpen(g, s, 0);
    assert Recorded(g, s) ==> Union(s.popped) == Done(s) by { RecordedUnion(g, s); }
  }

  lemma RecordedUnion(g: Graph, s: State)
    ensures Recorded(g, s) ==> Union(s.popped) == Done(s)
  {
  }

  // ---------- The whole function ----------

  ghost predicate EndpointsKnown(names: seq<Name>, edges: seq<Edge>) {
    forall e :: e in edges ==> e.importer in names && e.imported in names
  }

  /** What the function promises: exactly the strongly connected components with at least
      two modules, each once, each sorted, in sorted order. */
  ghost predicate IsReport(g: Graph, report: seq<seq<Name>>) {
    && (forall c :: c in report ==> Sorted(NameLeq, c) && NoDuplicates(c))
    && Sorted(NamesLeq, report) && NoDuplicates(report)
    && SetsOf(report) == Cycles(g)
  }

  method BuildAdjacency(names: seq<Name>, edges: seq<Edge>)
    returns (keys: seq<Name>, adjacency: map<Name, seq<Name>>)
    requires EndpointsKnown(names, edges)
    ensures Elements(keys) == Elements(names) && NoDuplicates(keys)
    ensures ListsImports(GraphOf(names, edges), adjacency)
  {
    keys, adjacency := [], map[];
    for i := 0 to |names|
      invariant Elements(keys) == Elements(names[..i]) && NoDuplicates(keys)
      invariant adjacency.Keys == Elements(keys)
      invariant forall a :: a in adjacency ==> adjacency[a] == []
    {
      assert Elements(names[..i + 1]) == Elements(names[..i]) + {names[i]};
      if names[i] !in adjacency {
        assert forall a :: a in keys ==> a in Elements(keys);
        keys := keys + [names[i]];
      }
      adjacency := adjacency[names[i] := []];
    }
    assert names[..|names|] == names;
    for i := 0 to |edges|
      invariant adjacency.Keys == Elements(names)
      invariant forall a, b :: a in adjacency ==>
        (b in adjacency[a] <==> exists e :: e in edges[..i] && e.importer == a && e.imported == b)
    {
      var e := edges[i];
      assert edges[..i + 1] == edges[..i] + [e];
      adjacency := adjacency[e.importer := adjacency[e.importer] + [e.imported]];
    }
    assert edges[..|edges|] == edges;
    var lists := adjacency;
    adjacency := map a | a in lists :: SortBy(NameLeq, lists[a]);
    forall a, b | a in adjacency
      ensures b in adjacency[a] <==> (a, b) in GraphOf(names, edges).links
    {
      SameMembers(lists[a], adjacency[a]);
    }
  }

  method ReportCycles(names: seq<Name>, edges: seq<Edge>) returns (report: seq<seq<Name>>)
    requires EndpointsKnown(names, edges)
    ensures IsReport(GraphOf(names, edges), report)
  {
    ghost var g := GraphOf(names, edges);
    var keys, adjacency := BuildAdjacency(names, edges);
    NameOrders();
    SortByLists(NameLeq, keys);
    var tarjan := new Tarjan(adjacency, g);
    tarjan.VisitAll(SortBy(NameLeq, keys));
    report := SortBy(NamesLeq, tarjan.components);
    PoppedLargeAreCycles(g, tarjan.popped);
    SortByLists(NamesLeq, tarjan.components);
    assert SetsOf(report) == SetsOf(tarjan.components);
  }

  lemma PoppedLargeAreCycles(g: Graph, popped: seq<set<Name>>)
    requires forall k :: 0 <= k < |popped| ==> popped[k] != {}
    requires forall k, a :: 0 <= k < |popped| && a in popped[k] ==> popped[k] == Component(g, a)
    requires Union(popped) == g.nodes
    ensures Large(popped) == Cycles(g)
  {
    forall c | c in Large(popped) ensures c in Cycles(g) {
      var k :| 0 <= k < |popped| && popped[k] == c;
      var a :| a in c;
      assert a in Union(popped);
    }
    forall a | a in g.nodes && |Component(g, a)| > 1 ensures Component(g, a) in Large(popped) {
      assert a in Union(popped);
      var c :| c in popped && a in c;
    }
  }
}
