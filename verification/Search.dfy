/** The depth-first search of `_strong_components`, as a value: what the search knows at
    one moment, what it keeps at every moment, and why each step keeps it. */
module Search {
  import opened Orders
  import opened Graphs

  /** The variables the nested `visit` shares, and two that only the proof needs:
      `open`, the modules whose `visit` has not returned, and `popped`, every segment
      taken off the stack so far, single modules included. */
  datatype State = State(
    index: nat,
    indexes: map<Name, nat>,
    lowLinks: map<Name, nat>,
    stack: seq<Name>,
    onStack: set<Name>,
    components: seq<seq<Name>>,
    open: set<Name>,
    popped: seq<set<Name>>)

  ghost function Done(s: State): set<Name> { s.indexes.Keys - s.onStack }

  ghost function Union(sets: seq<set<Name>>): set<Name> {
    set c, a | c in sets && a in c :: a
  }

  ghost function Large(sets: seq<set<Name>>): set<set<Name>> {
    set c | c in sets && |c| > 1
  }

  ghost function SetsOf(lists: seq<seq<Name>>): set<set<Name>> {
    set c | c in lists :: Elements(c)
  }

  // ---------- What holds throughout the search ----------

  /** Numbers are distinct and given out in order; the stack carries increasing numbers
      and `on_stack` is exactly its set. */
  ghost predicate Numbered(g: Graph, s: State) {
    && s.indexes.Keys <= g.nodes
    && s.lowLinks.Keys == s.indexes.Keys
    && (forall a :: a in s.indexes ==> s.indexes[a] < s.index)
    && (forall a, b :: a in s.indexes && b in s.indexes && s.indexes[a] == s.indexes[b] ==> a == b)
    && s.onStack == Elements(s.stack)
    && s.onStack <= s.indexes.Keys
    && (forall i, j :: 0 <= i < j < |s.stack| ==> s.indexes[s.stack[i]] < s.indexes[s.stack[j]])
    && s.open <= s.onStack
  }

  /** A module whose visit has returned has no unvisited import, and one that has also
      left the stack has none on the stack either. */
  ghost predicate Explored(g: Graph, s: State) {
    && (forall a, b :: (a, b) in g.links && a in s.indexes && a !in s.open ==> b in s.indexes)
    && Closed(g, Done(s))
  }

  /** Up the stack there is always a path, and from any module on it there is one back
      to an open module at or below it. */
  ghost predicate Linked(g: Graph, s: State) {
    && (forall i, j :: 0 <= i <= j < |s.stack| ==> Reach(g, s.stack[i], s.stack[j]))
    && (forall j :: 0 <= j < |s.stack| ==> ReachesOpen(g, s, j))
  }

  ghost predicate ReachesOpen(g: Graph, s: State, j: nat)
    requires j < |s.stack|
  {
    exists i :: 0 <= i <= j && s.stack[i] in s.open && Reach(g, s.stack[j], s.stack[i])
  }

  /** The popped segments are disjoint whole components that make up `done`. */
  ghost predicate Partitions(g: Graph, popped: seq<set<Name>>, done: set<Name>) {
    && (forall k :: 0 <= k < |popped| ==> popped[k] != {})
    && (forall k, a :: 0 <= k < |popped| && a in popped[k] ==> popped[k] == Component(g, a))
    && (forall j, k :: 0 <= j < k < |popped| ==> popped[j] !! popped[k])
    && Union(popped) == done
  }

  /** The reported lists are the large segments, each once and sorted. */
  ghost predicate Lists(lists: seq<seq<Name>>, popped: seq<set<Name>>) {
    && (forall c :: c in lists ==> Sorted(NameLeq, c) && NoDuplicates(c))
    && NoDuplicates(lists)
    && SetsOf(lists) == Large(popped)
  }

  ghost predicate Recorded(g: Graph, s: State) {
    Partitions(g, s.popped, Done(s)) && Lists(s.components, s.popped)
  }

  ghost predicate Inv(g: Graph, s: State) {
    Numbered(g, s) && Explored(g, s) && Linked(g, s) && Recorded(g, s)
  }

  // ---------- What one visit promises ----------

  /** `t` continues `s`: nothing below is forgotten or renumbered. */
  ghost predicate Extends(s: State, t: State) {
    && s.index <= t.index
    && s.stack <= t.stack
    && s.indexes.Keys <= t.indexes.Keys
    && s.lowLinks.Keys <= t.lowLinks.Keys
    && (forall a :: a in s.indexes ==> t.indexes[a] == s.indexes[a])
    && (forall a :: a in t.indexes && a !in s.indexes ==> t.indexes[a] >= s.index)
    && s.popped <= t.popped
    && s.components <= t.components
  }

  ghost predicate LowLinksKept(s: State, t: State) {
    forall a :: a in s.lowLinks ==> a in t.lowLinks && t.lowLinks[a] == s.lowLinks[a]
  }

  /** The low link of `x` is the number of some module on the stack that `x` reaches. */
  ghost predicate LowIsReached(g: Graph, s: State, x: Name)
    requires x in s.lowLinks && s.onStack <= s.indexes.Keys
  {
    exists y :: y in s.onStack && s.indexes[y] == s.lowLinks[x] && Reach(g, x, y)
  }

  /** Every link from above height `h` back below it is accounted for in the low link of `x`. */
  ghost predicate LowCovers(g: Graph, s: State, x: Name, h: nat)
    requires x in s.lowLinks && h <= |s.stack| && s.onStack <= s.indexes.Keys && s.onStack == Elements(s.stack)
  {
    forall i, j :: 0 <= j < h <= i < |s.stack| && (s.stack[i], s.stack[j]) in g.links
      ==> s.lowLinks[x] <= s.indexes[s.stack[j]]
  }

  /** `visit(x)` took the search from `s` to `t`. */
  ghost predicate Visited(g: Graph, s: State, x: Name, t: State) {
    && Inv(g, t)
    && Extends(s, t)
    && LowLinksKept(s, t)
    && t.open == s.open
    && x in t.indexes && t.indexes[x] == s.index
    && x in t.lowLinks && t.lowLinks[x] <= t.indexes[x]
    && (t.lowLinks[x] == t.indexes[x] <==> x !in t.onStack)
    && (x in t.onStack ==> LowIsReached(g, t, x))
    && LowCovers(g, t, x, |s.stack|)
  }

  /** How the search stands inside `visit(x)`, entered in `s`: `x` sits just above the old
      stack, with the next number, and is the newest open module. */
  ghost predicate Framed(s: State, x: Name, t: State) {
    && Extends(s, t)
    && LowLinksKept(s, t)
    && s.open <= s.onStack == Elements(s.stack) <= s.indexes.Keys == s.lowLinks.Keys
    && x !in s.indexes
    && t.open == s.open + {x}
    && s.stack + [x] <= t.stack
    && x in t.indexes && t.indexes[x] == s.index
    && x in t.lowLinks && t.lowLinks[x] <= t.indexes[x]
    && (forall a :: a in s.indexes ==> s.indexes[a] < s.index)
  }

  /** `LowCovers` so far: from `x` itself only the imports in `seen` count. */
  ghost predicate LowCoversSeen(g: Graph, s: State, x: Name, seen: set<Name>, h: nat)
    requires x in s.lowLinks && h <= |s.stack| && s.onStack <= s.indexes.Keys && s.onStack == Elements(s.stack)
  {
    forall i, j :: 0 <= j < h <= i < |s.stack| && (s.stack[i], s.stack[j]) in g.links
                   && (s.stack[i] == x ==> s.stack[j] in seen)
      ==> s.lowLinks[x] <= s.indexes[s.stack[j]]
  }

  /** Inside `visit(x)`, entered in `s`, after the imports in `seen`. */
  ghost predicate Visiting(g: Graph, s: State, x: Name, seen: set<Name>, t: State) {
    && Inv(g, t)
    && Framed(s, x, t)
    && seen <= t.indexes.Keys
    && LowIsReached(g, t, x)
    && LowCoversSeen(g, t, x, seen, |s.stack|)
  }

  // ---------- Entering ----------

  function Enter(s: State, x: Name): State {
    s.(indexes := s.indexes[x := s.index],
       lowLinks := s.lowLinks[x := s.index],
       index := s.index + 1,
       stack := s.stack + [x],
       onStack := s.onStack + {x},
       open := s.open + {x})
  }

  lemma EnterKeeps(g: Graph, s: State, x: Name)
    requires WellFormed(g) && Inv(g, s)
    requires x in g.nodes && x !in s.indexes
    requires forall a :: a in s.open ==> Reach(g, a, x)
    ensures Visiting(g, s, x, {}, Enter(s, x))
  {
    var t := Enter(s, x);
    EnterNumbered(g, s, x);
    EnterLinked(g, s, x);
    EnterExplored(g, s, x);
    EnterFramed(g, s, x);
    ReachSelf(g, x);
    hide Numbered, Explored, Linked, Partitions, Lists, Framed, Reach;
    assert x in t.onStack && t.indexes[x] == t.lowLinks[x];
    assert LowIsReached(g, t, x);
    assert LowCoversSeen(g, t, x, {}, |s.stack|) by {
      assert forall i :: |s.stack| <= i < |t.stack| ==> t.stack[i] == x;
    }
  }

  lemma EnterExplored(g: Graph, s: State, x: Name)
    requires Explored(g, s) && x !in s.indexes
    ensures Explored(g, Enter(s, x)) && Done(Enter(s, x)) == Done(s)
  {
    assert Done(Enter(s, x)) == Done(s);
  }

  lemma EnterFramed(g: Graph, s: State, x: Name)
    requires Numbered(g, s) && x !in s.indexes
    ensures Framed(s, x, Enter(s, x))
  {
  }

  lemma EnterNumbered(g: Graph, s: State, x: Name)
    requires Numbered(g, s) && x in g.nodes && x !in s.indexes
    ensures Numbered(g, Enter(s, x))
  {
    var t := Enter(s, x);
    assert forall a :: a in t.stack <==> a in s.stack || a == x;
  }

  lemma EnterLinked(g: Graph, s: State, x: Name)
    requires Numbered(g, s) && Linked(g, s)
    requires forall a :: a in s.open ==> Reach(g, a, x)
    ensures Linked(g, Enter(s, x))
  {
    hide Numbered, Reach;
    var t := Enter(s, x);
    var h := |s.stack|;
    ReachSelf(g, x);
    forall j | 0 <= j < h ensures ReachesOpen(g, t, j) && Reach(g, s.stack[j], x) {
      assert ReachesOpen(g, s, j);
      var i :| 0 <= i <= j && s.stack[i] in s.open && Reach(g, s.stack[j], s.stack[i]);
      ReachTransitive(g, s.stack[j], s.stack[i], x);
      assert t.stack[i] in t.open && Reach(g, t.stack[j], t.stack[i]);
    }
    assert t.stack[h] == x && ReachesOpen(g, t, h);
  }

  lemma VisitingGrows(g: Graph, s: State, x: Name, seen: set<Name>, t: State)
    requires Visiting(g, s, x, seen, t)
    ensures s.indexes.Keys + {x} <= t.indexes.Keys && x !in s.indexes && t.indexes.Keys <= g.nodes
  {
  }

  // ---------- One import of the module being visited ----------

  function Min(a: nat, b: nat): nat { if a <= b then a else b }

  function Lower(s: State, x: Name, bound: nat): State
    requires x in s.lowLinks
  {
    s.(lowLinks := s.lowLinks[x := Min(s.lowLinks[x], bound)])
  }

  lemma LowerKeepsInv(g: Graph, s: State, x: Name, bound: nat)
    requires Inv(g, s) && x in s.lowLinks
    ensures Inv(g, Lower(s, x, bound))
  {
    var t := Lower(s, x, bound);
    assert Done(t) == Done(s);
    assert forall j :: 0 <= j < |s.stack| ==> ReachesOpen(g, s, j) ==> ReachesOpen(g, t, j);
  }

  /** The open modules reach whatever the module being visited imports. */
  lemma OpenReachTarget(g: Graph, s: State, x: Name, t: State, target: Name)
    requires Inv(g, t) && Framed(s, x, t) && (x, target) in g.links
    ensures forall a :: a in t.open ==> Reach(g, a, target)
  {
    hide Reach;
    var h := |s.stack|;
    assert t.stack[h] == x;
    ReachLink(g, x, target);
    forall a | a in t.open ensures Reach(g, a, target) {
      if a != x {
        assert a in Elements(s.stack);
        var i :| 0 <= i < h && s.stack[i] == a;
        assert t.stack[i] == a;
        ReachTransitive(g, a, x, target);
      }
    }
  }

  lemma TargetVisited(g: Graph, s: State, x: Name, seen: set<Name>, t: State, target: Name, u: State)
    requires Visiting(g, s, x, seen, t) && (x, target) in g.links
    requires target !in t.indexes && Visited(g, t, target, u)
    ensures Visiting(g, s, x, seen + {target}, Lower(u, x, u.lowLinks[target]))
  {
    LowerKeepsInv(g, u, x, u.lowLinks[target]);
    assert Numbered(g, t) && Numbered(g, u);
    hide Explored, Linked, Recorded, LowIsReached, LowCovers, LowCoversSeen;
    FrameAfterVisit(s, x, t, u, u.lowLinks[target]);
    ReachedAfterVisit(g, s, x, t, target, u);
    CoversAfterVisit(g, s, x, seen, t, target, u);
  }

  lemma FrameAfterVisit(s: State, x: Name, t: State, u: State, bound: nat)
    requires Framed(s, x, t) && Extends(t, u) && LowLinksKept(t, u) && u.open == t.open
    ensures Framed(s, x, Lower(u, x, bound))
  {
    assert u.stack[..|t.stack|] == t.stack;
    assert t.stack[..|s.stack| + 1] == s.stack + [x];
    assert u.stack[..|s.stack| + 1] == s.stack + [x];
  }

  lemma ReachedAfterVisit(g: Graph, s: State, x: Name, t: State, target: Name, u: State)
    requires Numbered(g, t) && Numbered(g, u) && Framed(s, x, t)
    requires LowIsReached(g, t, x) && (x, target) in g.links
    requires target !in t.indexes && Extends(t, u) && LowLinksKept(t, u) && target in u.indexes
    requires u.indexes[target] >= t.index
    requires u.lowLinks[target] == u.indexes[target] <==> target !in u.onStack
    requires target in u.onStack ==> LowIsReached(g, u, target)
    ensures LowIsReached(g, Lower(u, x, u.lowLinks[target]), x)
  {
    hide Reach;
    var v := Lower(u, x, u.lowLinks[target]);
    if u.lowLinks[target] < u.lowLinks[x] {
      var y :| y in u.onStack && u.indexes[y] == u.lowLinks[target] && Reach(g, target, y);
      ReachLink(g, x, target);
      ReachTransitive(g, x, target, y);
      assert y in v.onStack;
    } else {
      var y :| y in t.onStack && t.indexes[y] == t.lowLinks[x] && Reach(g, x, y);
      assert y in t.stack;
      assert y in u.stack;
      assert y in v.onStack;
    }
  }

  lemma CoversAfterVisit(g: Graph, s: State, x: Name, seen: set<Name>, t: State, target: Name, u: State)
    requires Numbered(g, t) && Numbered(g, u) && Framed(s, x, t) && target !in t.indexes
    requires Extends(t, u) && LowLinksKept(t, u) && target in u.indexes
    requires LowCoversSeen(g, t, x, seen, |s.stack|) && LowCovers(g, u, target, |t.stack|)
    ensures LowCoversSeen(g, Lower(u, x, u.lowLinks[target]), x, seen + {target}, |s.stack|)
  {
    var v := Lower(u, x, u.lowLinks[target]);
    var h := |s.stack|;
    forall i, j | 0 <= j < h <= i < |v.stack| && (v.stack[i], v.stack[j]) in g.links
                  && (v.stack[i] == x ==> v.stack[j] in seen + {target})
      ensures v.lowLinks[x] <= v.indexes[v.stack[j]]
    {
      assert v.stack[j] == t.stack[j];
      assert t.stack[j] in t.onStack;
      if i < |t.stack| {
        assert v.stack[i] == t.stack[i];
      }
    }
  }

  lemma TargetKnown(g: Graph, s: State, x: Name, seen: set<Name>, t: State, target: Name)
    requires Visiting(g, s, x, seen, t) && (x, target) in g.links
    requires target in t.indexes
    ensures target in t.onStack ==> Visiting(g, s, x, seen + {target}, Lower(t, x, t.indexes[target]))
    ensures target !in t.onStack ==> Visiting(g, s, x, seen + {target}, t)
  {
    assert forall j :: 0 <= j < |t.stack| ==> t.stack[j] in Elements(t.stack);
    if target in t.onStack {
      LowerKeepsInv(g, t, x, t.indexes[target]);
      hide Explored, Linked, Recorded, LowIsReached, LowCovers, LowCoversSeen;
      FrameAfterVisit(s, x, t, t, t.indexes[target]);
      ReachLink(g, x, target);
      ReachedAfterBackLink(g, x, t, target);
      CoversAfterBackLink(g, x, seen, t, target, |s.stack|);
    } else {
      hide Explored, Linked, Recorded, LowIsReached;
    }
  }

  lemma ReachedAfterBackLink(g: Graph, x: Name, t: State, target: Name)
    requires Numbered(g, t) && x in t.lowLinks && target in t.onStack
    requires LowIsReached(g, t, x) && Reach(g, x, target)
    ensures LowIsReached(g, Lower(t, x, t.indexes[target]), x)
  {
    hide Reach;
    var v := Lower(t, x, t.indexes[target]);
    var y :| y in t.onStack && t.indexes[y] == t.lowLinks[x] && Reach(g, x, y);
    assert y in v.onStack && target in v.onStack;
  }

  lemma CoversAfterBackLink(g: Graph, x: Name, seen: set<Name>, t: State, target: Name, h: nat)
    requires Numbered(g, t) && x in t.lowLinks && target in t.indexes && h <= |t.stack|
    requires LowCoversSeen(g, t, x, seen, h)
    ensures LowCoversSeen(g, Lower(t, x, t.indexes[target]), x, seen + {target}, h)
  {
  }

  // ---------- Returning without popping ----------

  lemma LeaveKeeps(g: Graph, s: State, x: Name, seen: set<Name>, t: State)
    requires Visiting(g, s, x, seen, t)
    requires forall b :: (x, b) in g.links ==> b in seen
    requires t.lowLinks[x] != t.indexes[x]
    ensures Visited(g, s, x, t.(open := t.open - {x}))
  {
    hide Numbered, Explored, Linked, Recorded, Reach, LowIsReached, LowCovers, LowCoversSeen;
    LeaveLinked(g, s, x, t);
    LeaveRecorded(g, t, x);
    LeaveCovers(g, s, x, seen, t);
    LeaveExplored(g, s, x, seen, t);
    assert t.open - {x} == s.open;
  }

  lemma LeaveExplored(g: Graph, s: State, x: Name, seen: set<Name>, t: State)
    requires Numbered(g, t) && Explored(g, t) && Framed(s, x, t) && seen <= t.indexes.Keys
    requires forall b :: (x, b) in g.links ==> b in seen
    ensures var u := t.(open := t.open - {x}); Numbered(g, u) && Explored(g, u)
    ensures x in t.onStack
  {
    var u := t.(open := t.open - {x});
    assert Done(u) == Done(t);
    assert t.stack[|s.stack|] == x;
    forall a, b | (a, b) in g.links && a in u.indexes && a !in u.open ensures b in u.indexes {
      if a == x { assert b in seen; }
    }
  }

  lemma LeaveCovers(g: Graph, s: State, x: Name, seen: set<Name>, t: State)
    requires Numbered(g, t) && Framed(s, x, t) && LowIsReached(g, t, x)
    requires LowCoversSeen(g, t, x, seen, |s.stack|)
    requires forall b :: (x, b) in g.links ==> b in seen
    ensures LowIsReached(g, t.(open := t.open - {x}), x)
    ensures LowCovers(g, t.(open := t.open - {x}), x, |s.stack|)
  {
    hide Reach;
    var u := t.(open := t.open - {x});
    var y :| y in t.onStack && t.indexes[y] == t.lowLinks[x] && Reach(g, x, y);
    assert y in u.onStack;
  }

  lemma LeaveRecorded(g: Graph, t: State, x: Name)
    requires Recorded(g, t)
    ensures Recorded(g, t.(open := t.open - {x}))
  {
    assert Done(t.(open := t.open - {x})) == Done(t);
  }

  /** A closing module passes its duty to the older open module its low link names. */
  lemma LeaveLinked(g: Graph, s: State, x: Name, t: State)
    requires Numbered(g, t) && Linked(g, t) && Framed(s, x, t) && LowIsReached(g, t, x)
    requires t.lowLinks[x] != t.indexes[x]
    ensures Linked(g, t.(open := t.open - {x}))
  {
    hide Reach;
    var u := t.(open := t.open - {x});
    var o := OlderOpen(g, s, x, t);
    forall j | 0 <= j < |u.stack| ensures ReachesOpen(g, u, j) {
      assert ReachesOpen(g, t, j);
      var i :| 0 <= i <= j && t.stack[i] in t.open && Reach(g, t.stack[j], t.stack[i]);
      if t.stack[i] == x {
        ReachTransitive(g, t.stack[j], x, t.stack[o]);
        assert t.indexes[t.stack[o]] < t.indexes[t.stack[i]];
        assert o < i;
        assert u.stack[o] in u.open;
      } else {
        assert u.stack[i] in u.open;
      }
    }
  }

  lemma OlderOpen(g: Graph, s: State, x: Name, t: State) returns (o: nat)
    requires Numbered(g, t) && Linked(g, t) && Framed(s, x, t) && LowIsReached(g, t, x)
    requires t.lowLinks[x] != t.indexes[x]
    ensures o < |s.stack| && t.stack[o] in t.open - {x} && Reach(g, x, t.stack[o])
    ensures t.indexes[t.stack[o]] < t.indexes[x]
  {
    hide Reach, Extends, LowLinksKept;
    var h := |s.stack|;
    assert t.stack[h] == x;
    var y :| y in t.onStack && t.indexes[y] == t.lowLinks[x] && Reach(g, x, y);
    assert y in Elements(t.stack);
    var k :| 0 <= k < |t.stack| && t.stack[k] == y;
    assert k < h;
    assert ReachesOpen(g, t, k);
    o :| 0 <= o <= k && t.stack[o] in t.open && Reach(g, y, t.stack[o]);
    ReachTransitive(g, x, y, t.stack[o]);
  }

  // ---------- Popping a component ----------

  ghost function Segment(s: State, t: State): set<Name>
    requires |s.stack| <= |t.stack|
  {
    Elements(t.stack[|s.stack|..])
  }

  /** `visit(x)` is about to pop: every import of `x` is seen and its low link is its number. */
  ghost predicate Popping(g: Graph, s: State, x: Name, seen: set<Name>, t: State) {
    && WellFormed(g)
    && Visiting(g, s, x, seen, t)
    && (forall b :: (x, b) in g.links ==> b in seen)
    && t.lowLinks[x] == t.indexes[x]
  }

  lemma SegmentMembers(s: State, x: Name, t: State)
    requires Framed(s, x, t) && t.onStack == Elements(t.stack) && NoDuplicates(t.stack)
    ensures t.stack[|s.stack|] == x && x in Segment(s, t)
    ensures t.onStack == s.onStack + Segment(s, t)
    ensures s.onStack !! Segment(s, t)
  {
    var h := |s.stack|;
    var top := t.stack[h..];
    assert top[0] == x;
    assert t.stack == s.stack + top;
    assert forall a :: a in t.stack <==> a in s.stack || a in top;
    forall i, j | 0 <= i < h && 0 <= j < |top| ensures s.stack[i] != top[j] {
      assert t.stack[i] == s.stack[i] && t.stack[h + j] == top[j];
    }
  }

  lemma StackDistinct(g: Graph, t: State)
    requires Numbered(g, t)
    ensures NoDuplicates(t.stack) && t.onStack == Elements(t.stack)
  {
  }

  /** With nothing below to go back to, no link leads out of the segment and what is done. */
  lemma SegmentClosed(g: Graph, s: State, x: Name, seen: set<Name>, t: State)
    requires Popping(g, s, x, seen, t) && NoDuplicates(t.stack)
    ensures Closed(g, Done(t) + Segment(s, t))
  {
    forall a, b | (a, b) in g.links && a in Segment(s, t) ensures b in Done(t) + Segment(s, t) {
      SegmentLink(g, s, x, seen, t, a, b);
    }
    assert Closed(g, Done(t));
  }

  lemma SegmentLink(g: Graph, s: State, x: Name, seen: set<Name>, t: State, a: Name, b: Name)
    requires Popping(g, s, x, seen, t) && NoDuplicates(t.stack)
    requires (a, b) in g.links && a in Segment(s, t)
    ensures b in Done(t) + Segment(s, t)
  {
    hide Linked, Recorded, LowIsReached, LowCoversSeen, Extends, LowLinksKept, NoDuplicates, Segment;
    StackDistinct(g, t);
    SegmentMembers(s, x, t);
    if a == x { assert b in seen; } else { OpenIsBelow(s, x, t, a); }
    NotBelow(g, s, x, seen, t, a, b);
  }

  lemma NotBelow(g: Graph, s: State, x: Name, seen: set<Name>, t: State, a: Name, b: Name)
    requires Popping(g, s, x, seen, t)
    requires (a, b) in g.links && a in Segment(s, t)
    ensures b !in s.onStack
  {
    hide Inv, LowIsReached, LowCoversSeen, Extends, LowLinksKept;
    var h := |s.stack|;
    var i :| 0 <= i < |t.stack[h..]| && t.stack[h..][i] == a;
    assert t.stack[h + i] == a;
    forall j | 0 <= j < h ensures s.stack[j] != b { NoLinkDown(g, s, x, seen, t, h + i, j); }
  }

  lemma NoLinkDown(g: Graph, s: State, x: Name, seen: set<Name>, t: State, i: nat, j: nat)
    requires Popping(g, s, x, seen, t)
    requires j < |s.stack| <= i < |t.stack|
    ensures (t.stack[i], s.stack[j]) !in g.links
  {
    hide Linked, Recorded, LowIsReached, Explored;
    assert t.stack[j] == s.stack[j];
    assert s.stack[j] in s.indexes by { assert s.stack[j] in Elements(s.stack); }
  }

  lemma OpenIsBelow(s: State, x: Name, t: State, a: Name)
    requires Framed(s, x, t) && s.onStack !! Segment(s, t) && a in Segment(s, t) && a != x
    ensures a !in t.open
  {
  }

  /** The segment from `x` up is exactly the component of `x`. */
  lemma SegmentIsComponent(g: Graph, s: State, x: Name, seen: set<Name>, t: State)
    requires Popping(g, s, x, seen, t) && NoDuplicates(t.stack)
    ensures Segment(s, t) == Component(g, x)
  {
    SegmentMembers(s, x, t);
    SegmentClosed(g, s, x, seen, t);
    hide Linked, Recorded, LowIsReached, LowCoversSeen, Segment, Reach;
    forall a | a in Segment(s, t) ensures a in Component(g, x) {
      SegmentMutual(g, s, x, t, a);
    }
    var inside := Done(t) + Segment(s, t);
    assert x in t.onStack && x !in Done(t);
    forall a | a in Component(g, x) ensures a in Segment(s, t) {
      ClosedReach(g, inside, x, a);
      if a in Done(t) {
        ClosedReach(g, Done(t), a, x);
      }
    }
  }

  lemma SegmentMutual(g: Graph, s: State, x: Name, t: State, a: Name)
    requires Numbered(g, t) && Linked(g, t) && Framed(s, x, t)
    requires s.onStack !! Segment(s, t) && a in Segment(s, t)
    requires Closed(g, Done(t) + Segment(s, t)) && t.onStack == s.onStack + Segment(s, t)
    ensures a in g.nodes && Mutual(g, x, a)
  {
    hide Reach, Extends, LowLinksKept, NoDuplicates;
    ghost var o := SegmentReaches(g, s, x, t, a);
    ClosedReach(g, Done(t) + Segment(s, t), a, o);
    if o != x {
      OpenIsBelow(s, x, t, o);
      assert false;
    }
  }

  /** A segment module is reached from the first one, and reaches an open stacked module. */
  lemma SegmentReaches(g: Graph, s: State, x: Name, t: State, a: Name) returns (o: Name)
    requires Numbered(g, t) && Linked(g, t) && Framed(s, x, t) && a in Segment(s, t)
    ensures a in g.nodes && Reach(g, x, a)
    ensures o in t.open && o in t.onStack && Reach(g, a, o)
  {
    hide Reach, Extends, LowLinksKept, NoDuplicates;
    var h := |s.stack|;
    assert t.stack[h] == x;
    var i :| 0 <= i < |t.stack[h..]| && t.stack[h..][i] == a;
    assert t.stack[h + i] == a;
    assert Reach(g, t.stack[h], t.stack[h + i]);
    assert ReachesOpen(g, t, h + i);
    var k :| 0 <= k <= h + i && t.stack[k] in t.open && Reach(g, a, t.stack[k]);
    o := t.stack[k];
    assert o in Elements(t.stack);
  }

  /** The search after the pop loop has moved the segment into `component`. */
  ghost function Pop(s: State, t: State, component: seq<Name>): State {
    t.(stack := s.stack,
       onStack := s.onStack,
       open := s.open,
       popped := t.popped + [Elements(component)],
       components := if |component| > 1 then t.components + [SortBy(NameLeq, component)] else t.components)
  }

  lemma PopKeeps(g: Graph, s: State, x: Name, seen: set<Name>, t: State, component: seq<Name>)
    requires Inv(g, s) && Popping(g, s, x, seen, t)
    requires NoDuplicates(component) && Elements(component) == Segment(s, t)
    ensures Visited(g, s, x, Pop(s, t, component))
    ensures Elements(component) == Component(g, x)
  {
    var u := Pop(s, t, component);
    StackDistinct(g, t);
    SegmentMembers(s, x, t);
    SegmentClosed(g, s, x, seen, t);
    SegmentIsComponent(g, s, x, seen, t);
    hide Linked, Recorded, Reach, LowIsReached, LowCoversSeen, Segment, Component;
    assert Done(u) == Done(t) + Segment(s, t);
    PopNumbered(g, s, x, t, component);
    PopLinked(g, s, t, component);
    PopRecorded(g, s, x, t, component);
    PopExplored(g, s, x, seen, t, component);
    PopExtends(s, x, t, component);
  }

  lemma PopExtends(s: State, x: Name, t: State, component: seq<Name>)
    requires Framed(s, x, t)
    ensures Extends(s, Pop(s, t, component))
    ensures LowLinksKept(s, Pop(s, t, component))
  {
    var u := Pop(s, t, component);
    assert u.components[..|s.components|] == s.components;
    assert u.popped[..|s.popped|] == s.popped;
  }

  lemma PopExplored(g: Graph, s: State, x: Name, seen: set<Name>, t: State, component: seq<Name>)
    requires Popping(g, s, x, seen, t)
    requires Closed(g, Done(Pop(s, t, component)))
    ensures Explored(g, Pop(s, t, component))
  {
    hide Linked, Recorded, LowIsReached, LowCoversSeen, Segment;
    var u := Pop(s, t, component);
    forall a, b | (a, b) in g.links && a in u.indexes && a !in u.open ensures b in u.indexes {
      if a == x { assert b in seen; } else { assert a !in t.open; }
    }
  }

  lemma PopNumbered(g: Graph, s: State, x: Name, t: State, component: seq<Name>)
    requires Numbered(g, s) && Numbered(g, t) && Framed(s, x, t)
    ensures Numbered(g, Pop(s, t, component))
  {
  }

  lemma PopLinked(g: Graph, s: State, t: State, component: seq<Name>)
    requires Linked(g, s)
    ensures Linked(g, Pop(s, t, component))
  {
    var u := Pop(s, t, component);
    forall j | 0 <= j < |u.stack| ensures ReachesOpen(g, u, j) {
      assert ReachesOpen(g, s, j);
    }
  }

  lemma PopRecorded(g: Graph, s: State, x: Name, t: State, component: seq<Name>)
    requires Recorded(g, t) && |s.stack| <= |t.stack|
    requires NoDuplicates(component) && Elements(component) == Segment(s, t) == Component(g, x)
    requires x in Segment(s, t) && Segment(s, t) <= t.onStack
    requires Done(Pop(s, t, component)) == Done(t) + Segment(s, t)
    ensures Recorded(g, Pop(s, t, component))
  {
    hide Component, Segment, Partitions, Lists;
    PartitionGrows(g, t.popped, Done(t), x, Elements(component));
    ListsGrow(t.components, t.popped, component);
  }

  lemma PartitionGrows(g: Graph, popped: seq<set<Name>>, done: set<Name>, x: Name, c: set<Name>)
    requires Partitions(g, popped, done) && c == Component(g, x) && x in c && c !! done
    ensures Partitions(g, popped + [c], done + c) && c !in Large(popped)
  {
    forall a | a in c ensures Component(g, a) == c { SameComponent(g, x, a); }
    hide Component;
    forall k | 0 <= k < |popped| ensures popped[k] !! c {
      assert popped[k] <= Union(popped);
    }
    UnionGrows(popped, c);
  }

  lemma ListsGrow(lists: seq<seq<Name>>, popped: seq<set<Name>>, component: seq<Name>)
    requires Lists(lists, popped)
    requires NoDuplicates(component) && Elements(component) !in Large(popped)
    ensures Lists(if |component| > 1 then lists + [SortBy(NameLeq, component)] else lists,
                  popped + [Elements(component)])
  {
    NameOrders();
    SortByLists(NameLeq, component);
    SetSize(component);
    hide SortBy, Sorted, TotalOrder, NoDuplicates, Lists;
    if |component| > 1 {
      AddList(lists, popped, SortBy(NameLeq, component));
    } else {
      SkipList(lists, popped, Elements(component));
    }
  }

  lemma SkipList(lists: seq<seq<Name>>, popped: seq<set<Name>>, c: set<Name>)
    requires Lists(lists, popped) && |c| <= 1
    ensures Lists(lists, popped + [c])
  {
    LargeGrows(popped, c);
  }

  lemma AddList(lists: seq<seq<Name>>, popped: seq<set<Name>>, list: seq<Name>)
    requires Lists(lists, popped) && Sorted(NameLeq, list) && NoDuplicates(list)
    requires Elements(list) !in Large(popped) && |Elements(list)| > 1
    ensures Lists(lists + [list], popped + [Elements(list)])
  {
    hide Sorted;
    LargeGrows(popped, Elements(list));
    SetsGrow(lists, list);
    assert list in lists ==> Elements(list) in SetsOf(lists);
    assert forall c :: c in lists + [list] <==> c in lists || c == list;
  }

  lemma UnionGrows(sets: seq<set<Name>>, c: set<Name>)
    ensures Union(sets + [c]) == Union(sets) + c
  {
    assert c in sets + [c];
    assert forall d :: d in sets + [c] <==> d in sets || d == c;
  }

  lemma LargeGrows(sets: seq<set<Name>>, c: set<Name>)
    ensures Large(sets + [c]) == if |c| > 1 then Large(sets) + {c} else Large(sets)
  {
    assert forall d :: d in sets + [c] <==> d in sets || d == c;
  }

  lemma SetsGrow(lists: seq<seq<Name>>, c: seq<Name>)
    ensures SetsOf(lists + [c]) == SetsOf(lists) + {Elements(c)}
  {
    assert forall d :: d in lists + [c] <==> d in lists || d == c;
  }

  lemma {:induction false} SetSize(s: seq<Name>)
    requires NoDuplicates(s)
    ensures |Elements(s)| == |s|
  {
    if s != [] {
      SetSize(s[1..]);
      assert Elements(s) == {s[0]} + Elements(s[1..]);
    }
  }

  // ---------- What a low link tells ----------

  /** `x` carries the smallest number of its component. */
  ghost predicate FirstOfComponent(g: Graph, s: State, x: Name)
    requires x in s.indexes
  {
    forall a :: a in Component(g, x) && a in s.indexes ==> s.indexes[x] <= s.indexes[a]
  }

  /** When a visit returns, low link and number agree exactly for the module of its
      component that was visited first. */
  lemma LowLinkMarksFirst(g: Graph, s: State, x: Name, t: State)
    requires Inv(g, s) && x !in s.indexes && Visited(g, s, x, t)
    ensures t.lowLinks[x] == t.indexes[x] <==> FirstOfComponent(g, t, x)
  {
    if x in t.onStack {
      OnStackNotFirst(g, t, x);
    } else {
      OffStackFirst(g, s, x, t);
    }
  }

  lemma OnStackNotFirst(g: Graph, t: State, x: Name)
    requires Numbered(g, t) && Linked(g, t) && x in t.onStack
    requires LowIsReached(g, t, x) && t.lowLinks[x] < t.indexes[x]
    ensures !FirstOfComponent(g, t, x)
  {
    hide Reach;
    var y :| y in t.onStack && t.indexes[y] == t.lowLinks[x] && Reach(g, x, y);
    var i :| 0 <= i < |t.stack| && t.stack[i] == x;
    var j :| 0 <= j < |t.stack| && t.stack[j] == y;
    assert Reach(g, t.stack[j], t.stack[i]);
    assert y in Component(g, x);
  }

  lemma OffStackFirst(g: Graph, s: State, x: Name, t: State)
    requires Inv(g, s) && x !in s.indexes && Visited(g, s, x, t) && x !in t.onStack
    ensures FirstOfComponent(g, t, x)
  {
    hide Linked, Reach, LowCovers, Lists;
    forall a | a in Component(g, x) && a in t.indexes ensures t.indexes[x] <= t.indexes[a] {
      ClosedReach(g, Done(t), x, a);
      if a in s.indexes {
        assert a !in s.stack by { assert a in s.stack ==> a in t.stack; }
        assert a in Done(s);
        ClosedReach(g, Done(s), a, x);
      }
    }
  }
}
