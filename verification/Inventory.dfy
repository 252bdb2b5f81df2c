/** The architecture snapshot end to end: from the syntax trees of all modules to the two
    cycle lists. */
module Inventory {
  import opened Orders
  import opened Graphs
  import opened StrongComponents
  import opened CycleTheorems
  import opened Imports

  datatype SourceModule = SourceModule(name: Name, tree: seq<Stmt>)

  datatype Snapshot = Snapshot(edges: seq<Edge>, runtimeCycles: seq<seq<Name>>, allCycles: seq<seq<Name>>)

  function Names(modules: seq<SourceModule>): set<Name> {
    set m | m in modules :: m.name
  }

  /** What the modules import when they run. */
  ghost function RunningGraph(modules: seq<SourceModule>): Graph {
    Graph(Names(modules),
          set m, b | m in modules && b in AllTargets(AllRunning(m.tree), Names(modules)) - {m.name} :: (m.name, b))
  }

  /** What the modules import as written, type checking included. */
  ghost function WrittenGraph(modules: seq<SourceModule>): Graph {
    Graph(Names(modules),
          set m, b | m in modules && b in AllTargets(m.tree, Names(modules)) - {m.name} :: (m.name, b))
  }

  ghost predicate EdgeOf(m: SourceModule, known: set<Name>, e: Edge) {
    && e.importer == m.name
    && e.imported in AllTargets(m.tree, known) - {m.name}
    && e.typeOnly == (e.imported !in AllTargets(AllRunning(m.tree), known))
  }

  ghost predicate EdgesOfAll(modules: seq<SourceModule>, known: set<Name>, edges: seq<Edge>) {
    forall e :: e in edges <==> exists m :: m in modules && EdgeOf(m, known, e)
  }

  method DiscoverImports(modules: seq<SourceModule>) returns (edges: seq<Edge>)
    ensures Sorted(EdgeLeq, edges)
    ensures EdgesOfAll(modules, Names(modules), edges)
  {
    var known := Names(modules);
    var all := [];
    for i := 0 to |modules|
      invariant EdgesOfAll(modules[..i], known, all)
    {
      var found := ImportsFromSource(modules[i].name, modules[i].tree, known);
      assert modules[..i + 1] == modules[..i] + [modules[i]];
      assert forall m :: m in modules[..i + 1] <==> m in modules[..i] || m == modules[i];
      assert forall e :: e in found <==> EdgeOf(modules[i], known, e);
      all := all + found;
    }
    assert modules[..|modules|] == modules;
    EdgeOrder();
    SortByLists(EdgeLeq, all);
    edges := SortBy(EdgeLeq, all);
  }

  function RuntimeOnly(edges: seq<Edge>): (r: seq<Edge>)
    ensures forall e :: e in r <==> e in edges && !e.typeOnly
  {
    if edges == [] then []
    else (if edges[0].typeOnly then [] else [edges[0]]) + RuntimeOnly(edges[1..])
  }

  /** The discovered edges are the written graph, those not type-only the running graph,
      and every endpoint is a module, so building the adjacency never misses a key. */
  lemma EdgesAreGraphs(modules: seq<SourceModule>, names: seq<Name>, edges: seq<Edge>)
    requires Elements(names) == Names(modules) && EdgesOfAll(modules, Names(modules), edges)
    ensures EndpointsKnown(names, edges)
    ensures GraphOf(names, edges) == WrittenGraph(modules)
    ensures GraphOf(names, RuntimeOnly(edges)) == RunningGraph(modules)
  {
    var known := Names(modules);
    assert forall a :: a in known ==> a in names;
    forall m | m in modules ensures AllTargets(m.tree, known) <= known {
      AllTargetsKnown(m.tree, known);
    }
    forall m | m in modules
      ensures AllTargets(AllRunning(m.tree), known) <= AllTargets(m.tree, known)
    {
      AllRunningTargets(m.tree, known);
    }
    WrittenLinks(modules, edges);
    RunningLinks(modules, edges);
  }

  lemma WrittenLinks(modules: seq<SourceModule>, edges: seq<Edge>)
    requires EdgesOfAll(modules, Names(modules), edges)
    ensures (set e | e in edges :: (e.importer, e.imported)) == WrittenGraph(modules).links
  {
    var known := Names(modules);
    forall m, b | m in modules && b in AllTargets(m.tree, known) - {m.name}
      ensures exists e :: e in edges && (e.importer, e.imported) == (m.name, b)
    {
      var e := Edge(m.name, b, b !in AllTargets(AllRunning(m.tree), known));
      assert EdgeOf(m, known, e);
    }
  }

  lemma RunningLinks(modules: seq<SourceModule>, edges: seq<Edge>)
    requires EdgesOfAll(modules, Names(modules), edges)
    requires forall m :: m in modules ==>
      AllTargets(AllRunning(m.tree), Names(modules)) <= AllTargets(m.tree, Names(modules))
    ensures (set e | e in RuntimeOnly(edges) :: (e.importer, e.imported)) == RunningGraph(modules).links
  {
    var known := Names(modules);
    forall m, b | m in modules && b in AllTargets(AllRunning(m.tree), known) - {m.name}
      ensures exists e :: e in RuntimeOnly(edges) && (e.importer, e.imported) == (m.name, b)
    {
      var e := Edge(m.name, b, false);
      assert EdgeOf(m, known, e);
    }
  }

  lemma GraphsRelated(modules: seq<SourceModule>)
    ensures WellFormed(RunningGraph(modules)) && WellFormed(WrittenGraph(modules))
    ensures NoSelfImport(RunningGraph(modules)) && NoSelfImport(WrittenGraph(modules))
    ensures RunningGraph(modules).links <= WrittenGraph(modules).links
  {
    forall m | m in modules
      ensures AllTargets(AllRunning(m.tree), Names(modules)) <= AllTargets(m.tree, Names(modules)) <= Names(modules)
    {
      AllTargetsKnown(m.tree, Names(modules));
      AllRunningTargets(m.tree, Names(modules));
    }
  }

  method BuildSnapshot(modules: seq<SourceModule>) returns (s: Snapshot)
    ensures EdgesOfAll(modules, Names(modules), s.edges)
    ensures IsReport(RunningGraph(modules), s.runtimeCycles)
    ensures IsReport(WrittenGraph(modules), s.allCycles)
  {
    var edges := DiscoverImports(modules);
    var names := seq(|modules|, i requires 0 <= i < |modules| => modules[i].name);
    assert Elements(names) == Names(modules) by {
      forall m | m in modules ensures m.name in names {
        var i :| 0 <= i < |modules| && modules[i] == m;
        assert names[i] == m.name;
      }
    }
    EdgesAreGraphs(modules, names, edges);
    var runtimeCycles := ReportCycles(names, RuntimeOnly(edges));
    var allCycles := ReportCycles(names, edges);
    s := Snapshot(edges, runtimeCycles, allCycles);
  }

  /** The two cycle lists of a snapshot: each is empty exactly when its imports can be
      ordered, and every runtime cycle lies in exactly one cycle of all imports. */
  lemma SnapshotMeaning(modules: seq<SourceModule>, s: Snapshot)
    requires IsReport(RunningGraph(modules), s.runtimeCycles)
    requires IsReport(WrittenGraph(modules), s.allCycles)
    ensures s.runtimeCycles == [] <==> exists order :: ImportOrder(RunningGraph(modules), order)
    ensures s.allCycles == [] <==> exists order :: ImportOrder(WrittenGraph(modules), order)
    ensures forall c :: c in s.runtimeCycles ==>
      exists d :: d in s.allCycles && Elements(c) <= Elements(d) && OnlyMeets(s.allCycles, c, d)
    ensures forall d, a :: d in s.allCycles && a in d ==> Component(RunningGraph(modules), a) <= Elements(d)
  {
    GraphsRelated(modules);
    EmptyReportIffOrdered(RunningGraph(modules), s.runtimeCycles);
    EmptyReportIffOrdered(WrittenGraph(modules), s.allCycles);
    FewerLinksNest(RunningGraph(modules), WrittenGraph(modules), s.runtimeCycles, s.allCycles);
  }

  /** The snapshot does not depend on the order in which the modules are found. */
  lemma SnapshotIgnoresOrder(modules: seq<SourceModule>, modules': seq<SourceModule>, s: Snapshot, s': Snapshot)
    requires forall m :: m in modules <==> m in modules'
    requires IsReport(RunningGraph(modules), s.runtimeCycles) && IsReport(WrittenGraph(modules), s.allCycles)
    requires IsReport(RunningGraph(modules'), s'.runtimeCycles) && IsReport(WrittenGraph(modules'), s'.allCycles)
    ensures s.runtimeCycles == s'.runtimeCycles && s.allCycles == s'.allCycles
  {
    assert Names(modules) == Names(modules');
    assert RunningGraph(modules).links == RunningGraph(modules').links;
    assert WrittenGraph(modules).links == WrittenGraph(modules').links;
    ReportUnique(RunningGraph(modules), s.runtimeCycles, s'.runtimeCycles);
    ReportUnique(WrittenGraph(modules), s.allCycles, s'.allCycles);
  }
}
