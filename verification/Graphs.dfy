/** Directed graphs of module names: reachability and strongly connected components. */
module Graphs {
  type Name = string

  /** `(a, b) in links` when module `a` imports module `b`. */
  datatype Graph = Graph(nodes: set<Name>, links: set<(Name, Name)>)

  ghost predicate WellFormed(g: Graph) {
    forall a, b :: (a, b) in g.links ==> a in g.nodes && b in g.nodes
  }

  // ---------- Reachability ----------

  ghost predicate IsPath(g: Graph, p: seq<Name>, a: Name, b: Name) {
    && |p| > 0
    && p[0] == a
    && p[|p| - 1] == b
    && forall i :: 0 <= i < |p| - 1 ==> (p[i], p[i + 1]) in g.links
  }

  ghost predicate Reach(g: Graph, a: Name, b: Name) {
    exists p :: IsPath(g, p, a, b)
  }

  lemma ReachSelf(g: Graph, a: Name)
    ensures Reach(g, a, a)
  {
    assert IsPath(g, [a], a, a);
  }

  lemma ReachLink(g: Graph, a: Name, b: Name)
    requires (a, b) in g.links
    ensures Reach(g, a, b)
  {
    assert IsPath(g, [a, b], a, b);
  }

  lemma ReachTransitive(g: Graph, a: Name, b: Name, c: Name)
    requires Reach(g, a, b) && Reach(g, b, c)
    ensures Reach(g, a, c)
  {
    var p :| IsPath(g, p, a, b);
    var q :| IsPath(g, q, b, c);
    var r := p + q[1..];
    forall i | 0 <= i < |r| - 1 ensures (r[i], r[i + 1]) in g.links {
      if i >= |p| - 1 {
        assert r[i] == q[i - (|p| - 1)] && r[i + 1] == q[i + 1 - (|p| - 1)];
      }
    }
    assert IsPath(g, r, a, c);
  }

  /** A set that every link stays inside is never left by a path. */
  ghost predicate Closed(g: Graph, s: set<Name>) {
    forall a, b :: (a, b) in g.links && a in s ==> b in s
  }

  lemma ClosedReach(g: Graph, s: set<Name>, a: Name, b: Name)
    requires Closed(g, s) && a in s && Reach(g, a, b)
    ensures b in s
  {
    var p :| IsPath(g, p, a, b);
    PathStaysInside(g, s, p, |p| - 1);
  }

  lemma {:induction false} PathStaysInside(g: Graph, s: set<Name>, p: seq<Name>, i: nat)
    requires Closed(g, s) && i < |p| && p[0] in s
    requires forall k :: 0 <= k < |p| - 1 ==> (p[k], p[k + 1]) in g.links
    ensures p[i] in s
  {
    if i > 0 {
      PathStaysInside(g, s, p, i - 1);
      assert (p[i - 1], p[i - 1 + 1]) in g.links;
    }
  }

  lemma MoreLinksReachMore(g: Graph, h: Graph, a: Name, b: Name)
    requires g.links <= h.links && Reach(g, a, b)
    ensures Reach(h, a, b)
  {
    var p :| IsPath(g, p, a, b);
    assert IsPath(h, p, a, b);
  }

  // ---------- Strongly connected components ----------

  ghost predicate Mutual(g: Graph, a: Name, b: Name) {
    Reach(g, a, b) && Reach(g, b, a)
  }

  ghost function Component(g: Graph, a: Name): set<Name> {
    set b | b in g.nodes && Mutual(g, a, b)
  }

  /** The strongly connected components with at least two modules. */
  ghost function Cycles(g: Graph): set<set<Name>> {
    set a | a in g.nodes && |Component(g, a)| > 1 :: Component(g, a)
  }

  lemma MutualTransitive(g: Graph, a: Name, b: Name, c: Name)
    requires Mutual(g, a, b) && Mutual(g, b, c)
    ensures Mutual(g, a, c)
  {
    ReachTransitive(g, a, b, c);
    ReachTransitive(g, c, b, a);
  }

  lemma ComponentSelf(g: Graph, a: Name)
    requires a in g.nodes
    ensures a in Component(g, a)
  {
    ReachSelf(g, a);
  }

  lemma SameComponent(g: Graph, a: Name, b: Name)
    requires b in Component(g, a)
    ensures Component(g, b) == Component(g, a)
  {
    forall c | c in Component(g, a) ensures c in Component(g, b) { MutualTransitive(g, b, a, c); }
    forall c | c in Component(g, b) ensures c in Component(g, a) { MutualTransitive(g, a, b, c); }
  }
}
