/** Category forests: the recursive lineage check, and peeling a forest leaf by leaf. */
module Lineage {
  import opened Orders
  import opened Wrappers

  /** Record identifiers; the database hands out positive ones. */
  type Id = nat

  /** `parent` is the parent reference after `relation_id`: None for a root. */
  datatype Category = Category(name: string, parent: Option<Id>)

  type Rows = map<Id, Category>

  // ---------- The nested `path` ----------

  function PathOf(rows: Rows, id: Id, seen: set<Id>): Option<seq<string>>
    decreases |rows.Keys - seen|
  {
    if id in seen || id !in rows then None
    else if rows[id].parent.None? then Some([rows[id].name])
    else
      Fewer(rows.Keys - seen, id);
      assert rows.Keys - (seen + {id}) == rows.Keys - seen - {id};
      var above := PathOf(rows, rows[id].parent.value, seen + {id});
      if above.None? then None else Some(above.value + [rows[id].name])
  }

  lemma Fewer(s: set<Id>, id: Id)
    requires id in s
    ensures |s - {id}| < |s|
  {
  }

  /** The check of `verify_business`: every row has a path. */
  predicate LineageAccepts(rows: Rows) {
    forall id :: id in rows ==> PathOf(rows, id, {}).Some?
  }

  ghost predicate ParentsPresent(rows: Rows) {
    forall id :: id in rows && rows[id].parent.Some? ==> rows[id].parent.value in rows
  }

  /** Each row of `c` is a child of the next, and the last a child of the first. */
  ghost predicate IsCycle(rows: Rows, c: seq<Id>) {
    && |c| > 0
    && (forall i :: 0 <= i < |c| ==> c[i] in rows)
    && (forall i :: 0 <= i < |c| - 1 ==> rows[c[i]].parent == Some(c[i + 1]))
    && rows[c[|c| - 1]].parent == Some(c[0])
  }

  /** The lineage check accepts exactly the closed parent maps without a cycle. */
  lemma AcceptsIffForest(rows: Rows)
    ensures LineageAccepts(rows) <==> ParentsPresent(rows) && !exists c :: IsCycle(rows, c)
  {
    if LineageAccepts(rows) {
      forall id | id in rows ensures rows[id].parent.Some? ==> rows[id].parent.value in rows { PathStep(rows, id); }
      forall c ensures !IsCycle(rows, c) {
        if IsCycle(rows, c) { CycleHasNoPath(rows, c, 0, {}); }
      }
    }
    if ParentsPresent(rows) && !exists c :: IsCycle(rows, c) {
      forall id | id in rows ensures PathOf(rows, id, {}).Some? {
        WalkEnds(rows, [], id);
        assert Elements<Id>([]) == {};
      }
    }
  }

  lemma {:induction false} CycleHasNoPath(rows: Rows, c: seq<Id>, i: nat, seen: set<Id>)
    requires IsCycle(rows, c) && i < |c|
    ensures PathOf(rows, c[i], seen).None?
    decreases |rows.Keys - seen|
  {
    if c[i] !in seen {
      Fewer(rows.Keys - seen, c[i]);
      assert rows.Keys - (seen + {c[i]}) == rows.Keys - seen - {c[i]};
      CycleHasNoPath(rows, c, if i == |c| - 1 then 0 else i + 1, seen + {c[i]});
    }
  }

  /** `trail` climbs from child to parent, and its top row is a child of `id`. */
  ghost predicate ClimbsTo(rows: Rows, trail: seq<Id>, id: Id) {
    && (forall i :: 0 <= i < |trail| ==> trail[i] in rows)
    && (forall i :: 0 <= i < |trail| - 1 ==> rows[trail[i]].parent == Some(trail[i + 1]))
    && (|trail| > 0 ==> rows[trail[|trail| - 1]].parent == Some(id))
  }

  lemma {:induction false} WalkEnds(rows: Rows, trail: seq<Id>, id: Id)
    requires ParentsPresent(rows) && !exists c :: IsCycle(rows, c)
    requires ClimbsTo(rows, trail, id) && id in rows
    ensures PathOf(rows, id, Elements(trail)).Some?
    decreases |rows.Keys - Elements(trail)|
  {
    hide IsCycle, ClimbsTo, Elements;
    NeverBack(rows, trail, id);
    if rows[id].parent.Some? {
      var longer := trail + [id];
      ClimbStep(rows, trail, id);
      Fewer(rows.Keys - Elements(trail), id);
      assert rows.Keys - Elements(longer) == rows.Keys - Elements(trail) - {id};
      WalkEnds(rows, longer, rows[id].parent.value);
    }
  }

  lemma ClimbStep(rows: Rows, trail: seq<Id>, id: Id)
    requires ClimbsTo(rows, trail, id) && id in rows && rows[id].parent.Some?
    ensures ClimbsTo(rows, trail + [id], rows[id].parent.value)
    ensures Elements(trail + [id]) == Elements(trail) + {id}
  {
    assert forall x :: x in trail + [id] <==> x in trail || x == id;
  }

  lemma NeverBack(rows: Rows, trail: seq<Id>, id: Id)
    requires !exists c :: IsCycle(rows, c)
    requires ClimbsTo(rows, trail, id)
    ensures id !in Elements(trail)
  {
    forall k | 0 <= k < |trail| ensures trail[k] != id {
      var c := trail[k..];
      forall i | 0 <= i < |c| - 1 ensures rows[c[i]].parent == Some(c[i + 1]) {
        assert rows[trail[k + i]].parent == Some(trail[k + i + 1]);
      }
      assert trail[k] == id ==> IsCycle(rows, c);
    }
  }

  // ---------- The path found does not depend on the rows already seen ----------

  lemma {:induction false} PathIgnoresSeen(rows: Rows, id: Id, seen: set<Id>, less: set<Id>)
    requires less <= seen && PathOf(rows, id, seen).Some?
    ensures PathOf(rows, id, less) == PathOf(rows, id, seen)
    decreases |rows.Keys - seen|
  {
    if rows[id].parent.Some? {
      Fewer(rows.Keys - seen, id);
      assert rows.Keys - (seen + {id}) == rows.Keys - seen - {id};
      PathIgnoresSeen(rows, rows[id].parent.value, seen + {id}, less + {id});
    }
  }

  /** A row's path is its parent's path and its own name. */
  lemma PathStep(rows: Rows, id: Id)
    requires id in rows && PathOf(rows, id, {}).Some?
    ensures rows[id].parent.None? ==> PathOf(rows, id, {}) == Some([rows[id].name])
    ensures rows[id].parent.Some? ==>
      var above := PathOf(rows, rows[id].parent.value, {});
      rows[id].parent.value in rows && above.Some? && PathOf(rows, id, {}) == Some(above.value + [rows[id].name])
  {
    if rows[id].parent.Some? {
      PathIgnoresSeen(rows, rows[id].parent.value, {} + {id}, {});
    }
  }

  // ---------- Heights ----------

  /** `c` descends from `c[0]`, each row a child of the one before. */
  ghost predicate IsDescent(rows: Rows, c: seq<Id>) {
    && (forall i :: 0 <= i < |c| ==> c[i] in rows)
    && (forall i :: 0 < i < |c| ==> rows[c[i]].parent == Some(c[i - 1]))
  }

  /** Some descent of `k` steps starts at `id`. */
  ghost predicate Descends(rows: Rows, id: Id, k: nat) {
    exists c :: |c| == k + 1 && c[0] == id && IsDescent(rows, c)
  }

  /** `h` is the number of steps from `id` down to its deepest descendant. */
  ghost predicate HeightIs(rows: Rows, id: Id, h: nat) {
    Descends(rows, id, h) && !Descends(rows, id, h + 1)
  }

  ghost function AtLeast(rows: Rows, k: nat): set<Id> {
    set id | id in rows && Descends(rows, id, k)
  }

  ghost function AtHeight(rows: Rows, h: nat): set<Id> {
    set id | id in rows && HeightIs(rows, id, h)
  }

  lemma DescentStart(rows: Rows)
    ensures AtLeast(rows, 0) == rows.Keys
    ensures Peeled(rows, 0, Parents(rows))
  {
    forall id | id in rows ensures Descends(rows, id, 0) {
      assert IsDescent(rows, [id]) && [id][0] == id;
    }
  }

  lemma DescentShorter(rows: Rows, id: Id, k: nat)
    requires Descends(rows, id, k + 1)
    ensures Descends(rows, id, k)
  {
    var c :| |c| == k + 2 && c[0] == id && IsDescent(rows, c);
    assert IsDescent(rows, c[..k + 1]);
  }

  lemma DescentFromChild(rows: Rows, id: Id, child: Id, k: nat)
    requires id in rows && child in rows && rows[child].parent == Some(id) && Descends(rows, child, k)
    ensures Descends(rows, id, k + 1)
  {
    var c :| |c| == k + 1 && c[0] == child && IsDescent(rows, c);
    var d := [id] + c;
    forall i | 0 < i < |d| ensures rows[d[i]].parent == Some(d[i - 1]) {
      if i > 1 { assert rows[c[i - 1]].parent == Some(c[i - 2]); }
    }
    assert IsDescent(rows, d) && d[0] == id;
  }

  lemma DescentToChild(rows: Rows, id: Id, k: nat) returns (child: Id)
    requires Descends(rows, id, k + 1)
    ensures child in rows && rows[child].parent == Some(id) && Descends(rows, child, k)
  {
    var c :| |c| == k + 2 && c[0] == id && IsDescent(rows, c);
    child := c[1];
    assert rows[c[1]].parent == Some(c[0]);
    assert IsDescent(rows, c[1..]) && c[1..][0] == child by {
      forall i | 0 < i < |c[1..]| ensures rows[c[1..][i]].parent == Some(c[1..][i - 1]) {
        assert rows[c[i + 1]].parent == Some(c[i]);
      }
    }
  }

  /** A child is strictly lower than its parent. */
  lemma ChildIsLower(rows: Rows, child: Id, id: Id, i: nat, j: nat)
    requires id in rows && child in rows && rows[child].parent == Some(id)
    requires HeightIs(rows, child, i) && HeightIs(rows, id, j)
    ensures i < j
  {
    DescentFromChild(rows, id, child, i);
    if j <= i { DescendsDownTo(rows, id, i + 1, j + 1); }
  }

  lemma {:induction false} DescendsDownTo(rows: Rows, id: Id, k: nat, j: nat)
    requires j <= k && Descends(rows, id, k)
    ensures Descends(rows, id, j)
  {
    if j < k {
      DescentShorter(rows, id, k - 1);
      DescendsDownTo(rows, id, k - 1, j);
    }
  }

  lemma HeightUnique(rows: Rows, id: Id, i: nat, j: nat)
    requires HeightIs(rows, id, i) && HeightIs(rows, id, j)
    ensures i == j
  {
    if i < j { DescendsDownTo(rows, id, j, i + 1); }
    if j < i { DescendsDownTo(rows, id, i, j + 1); }
  }

  lemma {:induction false} HeightBelow(rows: Rows, id: Id, n: nat) returns (h: nat)
    requires Descends(rows, id, 0) && !Descends(rows, id, n)
    ensures h < n && HeightIs(rows, id, h)
  {
    h := n - 1;
    if !Descends(rows, id, n - 1) { h := HeightBelow(rows, id, n - 1); }
  }

  // ---------- One round of the peeling loop ----------

  type ParentMap = map<Id, Option<Id>>

  function Parents(rows: Rows): (m: ParentMap)
    ensures m.Keys == rows.Keys
  {
    map id | id in rows :: rows[id].parent
  }

  function Leaves(remaining: ParentMap): set<Id> {
    remaining.Keys - (set id | id in remaining && remaining[id].Some? :: remaining[id].value)
  }

  /** After `k` rounds the rows with a descent of `k` steps are left. */
  ghost predicate Peeled(rows: Rows, k: nat, remaining: ParentMap) {
    && remaining.Keys == AtLeast(rows, k)
    && forall id :: id in remaining ==> id in rows && remaining[id] == rows[id].parent
  }

  lemma PeelRound(rows: Rows, k: nat, remaining: ParentMap)
    requires Peeled(rows, k, remaining)
    ensures remaining.Keys == AtLeast(rows, k)
    ensures (remaining - Leaves(remaining)).Keys == AtLeast(rows, k + 1) == AtLeast(rows, k) - Leaves(remaining)
    ensures Leaves(remaining) <= remaining.Keys
    ensures Leaves(remaining) == AtHeight(rows, k)
    ensures Peeled(rows, k + 1, remaining - Leaves(remaining))
  {
    forall id | id in remaining
      ensures id in Leaves(remaining) <==> !Descends(rows, id, k + 1)
    {
      if Descends(rows, id, k + 1) {
        var child := DescentToChild(rows, id, k);
        assert child in remaining && remaining[child] == Some(id);
      }
      if id !in Leaves(remaining) {
        var child :| child in remaining && remaining[child] == Some(id);
        DescentFromChild(rows, id, child, k);
      }
    }
    forall id | Descends(rows, id, k + 1) ensures Descends(rows, id, k) {
      DescentShorter(rows, id, k);
    }
    forall id | id in rows && Descends(rows, id, k + 1) ensures id in remaining {
      assert Descends(rows, id, k);
    }
  }

  /** In a forest some remaining row is deepest, and a deepest row is a leaf. */
  lemma LeafExists(rows: Rows, k: nat, remaining: ParentMap)
    requires LineageAccepts(rows) && Peeled(rows, k, remaining) && remaining != map[]
    ensures Leaves(remaining) != {}
  {
    var id := Deepest(rows, remaining.Keys);
    forall child | child in remaining ensures remaining[child] != Some(id) {
      PathStep(rows, child);
    }
    assert id in Leaves(remaining);
  }

  ghost function Depth(rows: Rows, id: Id): nat
    requires PathOf(rows, id, {}).Some?
  {
    |PathOf(rows, id, {}).value|
  }

  lemma {:induction false} Deepest(rows: Rows, ids: set<Id>) returns (id: Id)
    requires LineageAccepts(rows) && ids != {} && ids <= rows.Keys
    ensures id in ids && forall other :: other in ids ==> Depth(rows, other) <= Depth(rows, id)
  {
    var first :| first in ids;
    if ids == {first} {
      id := first;
    } else {
      id := Deepest(rows, ids - {first});
      if Depth(rows, id) < Depth(rows, first) { id := first; }
    }
  }
}
