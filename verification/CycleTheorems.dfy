/** What the cycle report means: it depends on the graph alone, it is empty exactly for
    graphs with an import order, and adding links only merges components. */
module CycleTheorems {
  import opened Orders
  import opened Graphs
  import opened Counting
  import opened Search
  import opened StrongComponents

  // ---------- The report is determined by the graph ----------

  lemma ReportUnique(g: Graph, r: seq<seq<Name>>, q: seq<seq<Name>>)
    requires IsReport(g, r) && IsReport(g, q)
    ensures r == q
  {
    NameOrders();
    forall c | c in r ensures c in q { ListedIn(g, r, q, c); }
    forall c | c in q ensures c in r { ListedIn(g, q, r, c); }
    SortedListingUnique(NamesLeq, r, q);
  }

  lemma ListedIn(g: Graph, r: seq<seq<Name>>, q: seq<seq<Name>>, c: seq<Name>)
    requires IsReport(g, r) && IsReport(g, q) && c in r
    ensures c in q
  {
    assert Elements(c) in SetsOf(r);
    var d :| d in q && Elements(d) == Elements(c);
    NameOrders();
    SortedListingUnique(NameLeq, c, d);
  }

  /** Two modules stand in one cycle of the report if and only if imports lead from each to the
      other, and a module stands in one cycle at most. */
  lemma ReportMeans(g: Graph, report: seq<seq<Name>>)
    requires WellFormed(g) && IsReport(g, report)
    ensures forall a, b :: a in g.nodes && b in g.nodes && a != b ==>
      ((exists c :: c in report && a in c && b in c) <==> Reach(g, a, b) && Reach(g, b, a))
    ensures forall c, a :: c in report && a in c ==> a in g.nodes && exists b :: b in c && b != a
    ensures forall c, e, a :: c in report && e in report && a in c && a in e ==> c == e
  {
    hide IsReport, Reach, WellFormed;
    forall a, b | a in g.nodes && b in g.nodes && a != b
      ensures (exists c :: c in report && a in c && b in c) <==> Reach(g, a, b) && Reach(g, b, a)
    {
      InOneCycle(g, report, a, b);
    }
    forall c, a | c in report && a in c ensures a in g.nodes && exists b :: b in c && b != a {
      InCycles(g, report, c);
      NotAlone(g, c, a);
    }
    forall c, e, a | c in report && e in report && a in c && a in e ensures c == e {
      InCycles(g, report, c);
      InCycles(g, report, e);
      SameCycle(g, c, e, a);
      SameListing(g, report, c, e);
    }
  }

  lemma InCycles(g: Graph, report: seq<seq<Name>>, c: seq<Name>)
    requires IsReport(g, report) && c in report
    ensures Elements(c) in Cycles(g)
  {
    assert Elements(c) in SetsOf(report);
  }

  lemma InOneCycle(g: Graph, report: seq<seq<Name>>, a: Name, b: Name)
    requires IsReport(g, report) && a in g.nodes && b in g.nodes && a != b
    ensures (exists c :: c in report && a in c && b in c) <==> Reach(g, a, b) && Reach(g, b, a)
  {
    hide IsReport, Reach;
    if c :| c in report && a in c && b in c {
      InCycles(g, report, c);
      MembersMutual(g, c, a, b);
    }
    if Mutual(g, a, b) { CycleListed(g, report, a, b); }
  }

  lemma SameListing(g: Graph, report: seq<seq<Name>>, c: seq<Name>, e: seq<Name>)
    requires IsReport(g, report) && c in report && e in report && Elements(c) == Elements(e)
    ensures c == e
  {
    NameOrders();
    SortedListingUnique(NameLeq, c, e);
  }

  lemma MembersMutual(g: Graph, c: seq<Name>, a: Name, b: Name)
    requires Elements(c) in Cycles(g) && a in c && b in c
    ensures Mutual(g, a, b)
  {
    var x :| x in g.nodes && Component(g, x) == Elements(c);
    assert a in Component(g, x) && b in Component(g, x);
    ReachTransitive(g, a, x, b);
    ReachTransitive(g, b, x, a);
  }

  lemma CycleListed(g: Graph, report: seq<seq<Name>>, a: Name, b: Name)
    requires IsReport(g, report) && a in g.nodes && b in g.nodes && a != b && Mutual(g, a, b)
    ensures exists c :: c in report && a in c && b in c
  {
    ReachSelf(g, a);
    assert {a, b} <= Component(g, a);
    SubsetSize({a, b}, Component(g, a));
    assert Component(g, a) in Cycles(g);
    var c :| c in report && Elements(c) == Component(g, a);
    assert a in Elements(c) && b in Elements(c);
  }

  lemma NotAlone(g: Graph, c: seq<Name>, a: Name)
    requires Elements(c) in Cycles(g) && a in c
    ensures a in g.nodes && exists b :: b in c && b != a
  {
    var x :| x in g.nodes && Component(g, x) == Elements(c) && |Component(g, x)| > 1;
    assert a in Elements(c);
    if Elements(c) <= {a} {
      SubsetSize(Elements(c), {a});
      assert false;
    } else {
      var b :| b in Elements(c) && b != a;
      assert b in c;
    }
  }

  lemma SameCycle(g: Graph, c: seq<Name>, e: seq<Name>, a: Name)
    requires Elements(c) in Cycles(g) && Elements(e) in Cycles(g) && a in c && a in e
    ensures Elements(c) == Elements(e)
  {
    var x :| x in g.nodes && Component(g, x) == Elements(c);
    var y :| y in g.nodes && Component(g, y) == Elements(e);
    assert a in Elements(c) && a in Elements(e);
    SameComponent(g, x, a);
    SameComponent(g, y, a);
  }

  /** The report is in order, as are its cycles: by the first difference, beginnings first. */
  lemma ReportInOrder(g: Graph, report: seq<seq<Name>>)
    requires IsReport(g, report)
    ensures forall c, i, j :: c in report && 0 <= i < j < |c| ==>
      c[i] != c[j]
      && (c[i] <= c[j] || exists k :: 0 <= k < |c[i]| && k < |c[j]| && c[i][..k] == c[j][..k] && c[i][k] < c[j][k])
    ensures forall i, j :: 0 <= i < j < |report| ==> report[i] != report[j] && NamesLeq(report[i], report[j])
  {
    forall c, i, j | c in report && 0 <= i < j < |c|
      ensures c[i] != c[j]
      ensures
        c[i] <= c[j] || exists k :: 0 <= k < |c[i]| && k < |c[j]| && c[i][..k] == c[j][..k] && c[i][k] < c[j][k]
    {
      NameLeqMeans(c[i], c[j]);
    }
  }

  /** Neither the order of the inputs nor repetitions in them can change the report. */
  lemma ReportIgnoresOrder(names: seq<Name>, edges: seq<Edge>, names': seq<Name>, edges': seq<Edge>,
                           r: seq<seq<Name>>, r': seq<seq<Name>>)
    requires forall a :: a in names <==> a in names'
    requires forall e :: e in edges ==> exists f :: f in edges' && f.importer == e.importer && f.imported == e.imported
    requires forall f :: f in edges' ==> exists e :: e in edges && f.importer == e.importer && f.imported == e.imported
    requires IsReport(GraphOf(names, edges), r) && IsReport(GraphOf(names', edges'), r')
    ensures r == r'
  {
    assert Elements(names) == Elements(names');
    assert GraphOf(names, edges).links == GraphOf(names', edges').links;
    ReportUnique(GraphOf(names, edges), r, r');
  }

  // ---------- Empty report and import order ----------

  /** Every module comes after everything it imports. */
  ghost predicate ImportOrder(g: Graph, order: seq<Name>) {
    && NoDuplicates(order)
    && Elements(order) == g.nodes
    && forall i, j :: 0 <= i < |order| && 0 <= j < |order| && (order[i], order[j]) in g.links ==> j < i
  }

  ghost predicate NoSelfImport(g: Graph) {
    forall a :: (a, a) !in g.links
  }

  /** The report is empty, and no module imports itself, exactly when the modules can be
      ordered so that each follows its imports. */
  lemma EmptyReportIffOrdered(g: Graph, report: seq<seq<Name>>)
    requires WellFormed(g) && IsReport(g, report)
    ensures report == [] && NoSelfImport(g) <==> exists order :: ImportOrder(g, order)
  {
    assert report != [] ==> Elements(report[0]) in SetsOf(report);
    if report == [] && NoSelfImport(g) {
      SmallComponents(g);
      var order := BuildOrder(g, g.nodes);
      assert ImportOrder(g, order);
    }
    if order :| ImportOrder(g, order) {
      OrderedIsAcyclic(g, order);
    }
  }

  lemma SmallComponents(g: Graph)
    requires Cycles(g) == {}
    ensures forall a :: a in g.nodes ==> Component(g, a) == {a}
  {
    forall a | a in g.nodes ensures Component(g, a) == {a} {
      ComponentSelf(g, a);
      assert |Component(g, a)| > 1 ==> Component(g, a) in Cycles(g);
      assert |Component(g, a) - {a}| == 0;
      assert Component(g, a) == {a} + (Component(g, a) - {a});
    }
  }

  ghost function Below(g: Graph, a: Name): set<Name> {
    set b | b in g.nodes && Reach(g, a, b)
  }

  /** An import reaches strictly less than its importer. */
  lemma BelowShrinks(g: Graph, a: Name, b: Name)
    requires WellFormed(g) && NoSelfImport(g) && (a, b) in g.links
    requires Component(g, b) == {b}
    ensures |Below(g, b)| < |Below(g, a)|
  {
    ReachLink(g, a, b);
    ReachSelf(g, a);
    forall c | c in Below(g, b) ensures c in Below(g, a) { ReachTransitive(g, a, b, c); }
    assert a != b;
    assert a !in Component(g, b);
    assert a in Below(g, a) && a !in Below(g, b);
    Smaller(Below(g, b), Below(g, a));
  }

  lemma Smaller(s: set<Name>, t: set<Name>)
    requires s < t
    ensures |s| < |t|
  {
    assert t == s + (t - s);
    assert |t| == |s| + |t - s|;
    assert t - s != {};
  }

  lemma {:induction false} Highest(g: Graph, s: set<Name>) returns (a: Name)
    requires s != {}
    ensures a in s && forall b :: b in s ==> |Below(g, b)| <= |Below(g, a)|
  {
    var c :| c in s;
    if s == {c} {
      a := c;
    } else {
      a := Highest(g, s - {c});
      if |Below(g, a)| < |Below(g, c)| { a := c; }
    }
  }

  lemma {:induction false} BuildOrder(g: Graph, s: set<Name>) returns (order: seq<Name>)
    requires WellFormed(g) && NoSelfImport(g) && s <= g.nodes
    requires forall a :: a in g.nodes ==> Component(g, a) == {a}
    ensures NoDuplicates(order) && Elements(order) == s
    ensures forall i, j :: 0 <= i < |order| && 0 <= j < |order| && (order[i], order[j]) in g.links ==> j < i
    decreases |s|
  {
    if s == {} {
      order := [];
    } else {
      var a := Highest(g, s);
      var rest := BuildOrder(g, s - {a});
      order := rest + [a];
      assert forall b :: b in order <==> b in Elements(rest) || b == a;
      forall i | 0 <= i < |rest| ensures (rest[i], a) !in g.links && rest[i] != a {
        assert rest[i] in Elements(rest);
        if (rest[i], a) in g.links { BelowShrinks(g, rest[i], a); }
      }
    }
  }

  lemma OrderedIsAcyclic(g: Graph, order: seq<Name>)
    requires WellFormed(g) && ImportOrder(g, order)
    ensures NoSelfImport(g) && Cycles(g) == {}
  {
    forall a ensures (a, a) !in g.links {
      if a in Elements(order) {
        var i :| 0 <= i < |order| && order[i] == a;
        assert (order[i], order[i]) !in g.links;
      }
    }
    forall a | a in g.nodes ensures |Component(g, a)| <= 1 {
      assert a in Elements(order);
      var i :| 0 <= i < |order| && order[i] == a;
      forall b | b in Component(g, a) ensures b == a {
        assert b in Elements(order);
        var j :| 0 <= j < |order| && order[j] == b;
        ReachDescends(g, order, i, j);
        ReachDescends(g, order, j, i);
      }
      assert Component(g, a) <= {a};
      SubsetSize(Component(g, a), {a});
    }
  }

  lemma ReachDescends(g: Graph, order: seq<Name>, i: nat, j: nat)
    requires WellFormed(g) && ImportOrder(g, order)
    requires i < |order| && j < |order| && Reach(g, order[i], order[j])
    ensures j <= i
  {
    var early := Elements(order[..i + 1]);
    forall a, b | (a, b) in g.links && a in early ensures b in early {
      var k :| 0 <= k < |order[..i + 1]| && order[..i + 1][k] == a;
      assert order[k] == a && b in Elements(order);
      var l :| 0 <= l < |order| && order[l] == b;
      assert (order[k], order[l]) in g.links;
      assert order[..i + 1][l] == b;
    }
    assert order[..i + 1][i] == order[i];
    ClosedReach(g, early, order[i], order[j]);
    var k :| 0 <= k < |order[..i + 1]| && order[..i + 1][k] == order[j];
    assert order[k] == order[j];
  }

  // ---------- Runtime imports against all imports ----------

  /** With fewer links, every reported cycle lies in exactly one cycle of the larger graph,
      and each component of the larger graph is a union of components of the smaller. */
  lemma FewerLinksNest(g: Graph, h: Graph, r: seq<seq<Name>>, q: seq<seq<Name>>)
    requires g.nodes == h.nodes && g.links <= h.links
    requires IsReport(g, r) && IsReport(h, q)
    ensures forall c :: c in r ==> exists d :: d in q && Elements(c) <= Elements(d) && OnlyMeets(q, c, d)
    ensures forall d, a :: d in q && a in d ==> a in Component(g, a) && Component(g, a) <= Elements(d)
  {
    forall c | c in r ensures exists d :: d in q && Elements(c) <= Elements(d) && OnlyMeets(q, c, d) {
      var d := EnclosingCycle(g, h, r, q, c);
    }
    forall d, a | d in q && a in d ensures a in Component(g, a) && Component(g, a) <= Elements(d) {
      CycleIsComponent(h, q, d, a);
      ComponentSelf(g, a);
      ComponentGrows(g, h, a);
    }
  }

  /** `d` is the only list of `q` that shares a module with `c`. */
  ghost predicate OnlyMeets(q: seq<seq<Name>>, c: seq<Name>, d: seq<Name>) {
    forall e, a :: e in q && a in e && a in c ==> e == d
  }

  lemma ComponentGrows(g: Graph, h: Graph, a: Name)
    requires g.nodes == h.nodes && g.links <= h.links
    ensures Component(g, a) <= Component(h, a)
  {
    forall b | b in Component(g, a) ensures b in Component(h, a) {
      MoreLinksReachMore(g, h, a, b);
      MoreLinksReachMore(g, h, b, a);
    }
  }

  lemma CycleIsComponent(g: Graph, r: seq<seq<Name>>, c: seq<Name>, a: Name)
    requires IsReport(g, r) && c in r && a in c
    ensures a in g.nodes && Elements(c) == Component(g, a) && |Component(g, a)| > 1
  {
    assert Elements(c) in SetsOf(r);
    var b :| b in g.nodes && |Component(g, b)| > 1 && Component(g, b) == Elements(c);
    SameComponent(g, b, a);
  }

  lemma EnclosingCycle(g: Graph, h: Graph, r: seq<seq<Name>>, q: seq<seq<Name>>, c: seq<Name>)
    returns (d: seq<Name>)
    requires g.nodes == h.nodes && g.links <= h.links
    requires IsReport(g, r) && IsReport(h, q) && c in r
    ensures d in q && Elements(c) <= Elements(d) && OnlyMeets(q, c, d)
  {
    assert Elements(c) in Cycles(g) by { assert Elements(c) in SetsOf(r); }
    var a :| a in g.nodes && |Component(g, a)| > 1 && Component(g, a) == Elements(c);
    ComponentGrows(g, h, a);
    SubsetSize(Component(g, a), Component(h, a));
    assert Component(h, a) in SetsOf(q);
    d :| d in q && Elements(d) == Component(h, a);
    forall e, b | e in q && b in e && b in c ensures e == d {
      CycleIsComponent(h, q, e, b);
      assert b in Component(h, a);
      SameComponent(h, a, b);
      NameOrders();
      SortedListingUnique(NameLeq, e, d);
    }
  }
}
