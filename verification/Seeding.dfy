/** Seeding a category forest level by level, and reading it back. */
module Seeding {
  import opened Orders
  import opened Wrappers
  import opened Lineage
  import opened Counting

  type Path = seq<string>

  const MAX_DEPTH: nat := 4

  function Above(p: Path): Path
    requires |p| > 0
  {
    p[..|p| - 1]
  }

  function Leaf(p: Path): string
    requires |p| > 0
  {
    p[|p| - 1]
  }

  /** The paths the level loop reaches: those of depth 1 to 4. */
  ghost function UpTo(paths: set<Path>, depth: nat): set<Path> {
    set p | p in paths && 1 <= |p| <= depth
  }

  /** What the lineage of the record made for `p` reads, when records were made for `made`. */
  ghost function ReadBack(made: set<Path>, p: Path): Path
    requires |p| > 0
  {
    if |p| > 1 && Above(p) in made then ReadBack(made, Above(p)) + [Leaf(p)] else [Leaf(p)]
  }

  // ---------- When reading back gives the paths that were asked for ----------

  /** Every path has depth 1 to 4 and its parent path is there too. */
  ghost predicate Seedable(paths: set<Path>) {
    && (forall p :: p in paths ==> 1 <= |p| <= MAX_DEPTH)
    && (forall p :: p in paths && |p| > 1 ==> Above(p) in paths)
  }

  ghost function AllReadBack(paths: set<Path>): set<Path> {
    set p | p in UpTo(paths, MAX_DEPTH) :: ReadBack(UpTo(paths, MAX_DEPTH), p)
  }

  /** Seeding and reading back is the identity on a set of paths exactly when the set is
      closed under parents and no path is empty or deeper than the level loop. */
  lemma RoundTripIffSeedable(paths: set<Path>)
    ensures AllReadBack(paths) == paths <==> Seedable(paths)
  {
    if Seedable(paths) { SeedableReadsBack(paths); }
    if AllReadBack(paths) == paths { ReadBackSeedable(paths); }
  }

  lemma SeedableReadsBack(paths: set<Path>)
    requires Seedable(paths)
    ensures AllReadBack(paths) == paths
  {
    assert UpTo(paths, MAX_DEPTH) == paths;
    forall p | p in paths ensures ReadBack(paths, p) == p { ClosedReadsBack(paths, p); }
  }

  lemma ReadBackSeedable(paths: set<Path>)
    requires AllReadBack(paths) == paths
    ensures Seedable(paths)
  {
    var made := UpTo(paths, MAX_DEPTH);
    forall p | p in made ensures 1 <= |ReadBack(made, p)| <= MAX_DEPTH { ReadBackIsSuffix(made, p); }
    assert made == paths;
    NothingMoved(paths);
    forall p | p in paths && |p| > 1 ensures Above(p) in paths {
      assert ReadBack(paths, p) == p;
    }
  }

  /** If reading back hits every path, it moves none: consider a longest moved one. */
  lemma NothingMoved(made: set<Path>)
    requires forall p :: p in made ==> |p| > 0
    requires forall p :: p in made ==> exists q :: q in made && ReadBack(made, q) == p
    ensures forall p :: p in made ==> ReadBack(made, p) == p
  {
    var moved := set p | p in made && ReadBack(made, p) != p;
    if moved != {} {
      var p := Longest(moved);
      var q :| q in made && ReadBack(made, q) == p;
      ReadBackIsSuffix(made, q);
    }
    assert moved == {};
    forall p | p in made ensures ReadBack(made, p) == p { assert p !in moved; }
  }

  /** A path whose parent is not seeded becomes a root and reads back without its parent. */
  lemma OrphanReadsBackShort()
    ensures AllReadBack({["Machines", "Pumps"]}) == {["Pumps"]}
  {
    var made := UpTo({["Machines", "Pumps"]}, MAX_DEPTH);
    assert made == {["Machines", "Pumps"]};
    assert Above(["Machines", "Pumps"]) == ["Machines"];
    assert |["Machines"]| == 1;
    assert ReadBack(made, ["Machines", "Pumps"]) == ["Pumps"];
  }

  lemma {:induction false} ClosedReadsBack(made: set<Path>, p: Path)
    requires p in made && |p| > 0
    requires forall q :: q in made && |q| > 1 ==> Above(q) in made
    ensures ReadBack(made, p) == p
  {
    if |p| > 1 { ClosedReadsBack(made, Above(p)); }
    assert p == Above(p) + [Leaf(p)];
  }

  /** A lineage can only lose names at the root end. */
  lemma {:induction false} ReadBackIsSuffix(made: set<Path>, p: Path)
    requires |p| > 0
    ensures 1 <= |ReadBack(made, p)| <= |p|
    ensures |ReadBack(made, p)| == |p| ==> ReadBack(made, p) == p
  {
    assert p == Above(p) + [Leaf(p)];
    if |p| > 1 && Above(p) in made { ReadBackIsSuffix(made, Above(p)); }
  }

  lemma {:induction false} Longest(s: set<Path>) returns (p: Path)
    requires s != {}
    ensures p in s && forall q :: q in s ==> |q| <= |p|
  {
    var first :| first in s;
    if s == {first} {
      p := first;
    } else {
      p := Longest(s - {first});
      if |p| < |first| { p := first; }
    }
  }

  // ---------- The records the level loop makes ----------

  /** The new record for `p`: under the record of its parent path, or a root without one. */
  function RecordFor(p: Path, ids: map<Path, Id>): Category
    requires |p| > 0
  {
    Category(Leaf(p), if Above(p) in ids then Some(ids[Above(p)]) else None)
  }

  /** After some levels: `ids` holds one record for every path of depth up to `depth`,
      `created` the path of every record made, and nothing older has changed. */
  ghost predicate Levels(paths: set<Path>, depth: nat, before: Rows, ids: map<Path, Id>, created: map<Id, Path>,
                         rows: Rows) {
    && ids.Keys == UpTo(paths, depth)
    && (forall p :: p in ids ==> ids[p] in created && created[ids[p]] == p)
    && created.Keys !! before.Keys
    && rows.Keys == before.Keys + created.Keys
    && (forall id :: id in before ==> rows[id] == before[id])
    && (forall id :: id in created ==>
          created[id] in ids && |created[id]| > 0 && rows[id] == RecordFor(created[id], ids))
  }

  /** Every created record reads back as its path, as far as parents were seeded. */
  lemma {:induction false} CreatedLineage(paths: set<Path>, depth: nat, before: Rows, ids: map<Path, Id>,
                                          created: map<Id, Path>, rows: Rows, id: Id, seen: set<Id>)
    requires Levels(paths, depth, before, ids, created, rows) && id in created
    requires forall s :: s in seen ==> s in created && |created[s]| > |created[id]|
    ensures PathOf(rows, id, seen) == Some(ReadBack(ids.Keys, created[id]))
    decreases |created[id]|
  {
    var p := created[id];
    assert id !in seen;
    if Above(p) in ids {
      CreatedLineage(paths, depth, before, ids, created, rows, ids[Above(p)], seen + {id});
    }
  }

  /** `m.update(zip(keys, values))`. */
  function Assign<K, V>(m: map<K, V>, keys: seq<K>, values: seq<V>): map<K, V>
    requires |keys| == |values|
  {
    if keys == [] then m
    else Assign(m, keys[..|keys| - 1], values[..|keys| - 1])[keys[|keys| - 1] := values[|keys| - 1]]
  }

  lemma {:induction false} AssignMeans<K, V>(m: map<K, V>, keys: seq<K>, values: seq<V>)
    requires |keys| == |values|
    ensures Updated(m, keys, values, Assign(m, keys, values))
  {
    if keys != [] {
      var n := |keys| - 1;
      AssignMeans(m, keys[..n], values[..n]);
      assert keys == keys[..n] + [keys[n]];
      forall k | k in keys
        ensures exists i :: 0 <= i < |keys| && keys[i] == k && Assign(m, keys, values)[k] == values[i]
      {
        if k != keys[n] {
          assert k in keys[..n];
          var i :| 0 <= i < n && keys[..n][i] == k && Assign(m, keys[..n], values[..n])[k] == values[..n][i];
          assert keys[i] == k;
        }
      }
    }
  }

  function Records(level: seq<Path>, ids: map<Path, Id>): seq<Category>
    requires forall p :: p in level ==> |p| > 0
  {
    seq(|level|, i requires 0 <= i < |level| => RecordFor(level[i], ids))
  }

  /** `r` is `m` updated with the pairs of `keys` and `values`. */
  ghost predicate Updated<K, V>(m: map<K, V>, keys: seq<K>, values: seq<V>, r: map<K, V>)
    requires |keys| == |values|
  {
    && r.Keys == m.Keys + Elements(keys)
    && (forall k :: k in m && k !in keys ==> r[k] == m[k])
    && (forall k :: k in keys ==> exists i :: 0 <= i < |keys| && keys[i] == k && r[k] == values[i])
  }

  /** One more level keeps the picture, when its ids are new and each used once. */
  lemma NextLevel(paths: set<Path>, depth: nat, before: Rows, ids: map<Path, Id>, created: map<Id, Path>, rows: Rows,
                  level: seq<Path>, newIds: seq<Id>)
    requires Levels(paths, depth, before, ids, created, rows)
    requires |newIds| == |level| && NoDuplicates(newIds)
    requires forall p :: p in level <==> p in paths && |p| == depth + 1
    requires forall id :: id in newIds ==> id !in rows
    ensures Levels(paths, depth + 1, before, Assign(ids, level, newIds), Assign(created, newIds, level),
                   Assign(rows, newIds, Records(level, ids)))
  {
    hide Assign, Levels;
    AssignMeans(ids, level, newIds);
    AssignMeans(created, newIds, level);
    AssignMeans(rows, newIds, Records(level, ids));
    UpdatedLevels(paths, depth, before, ids, created, rows, level, newIds, Assign(ids, level, newIds),
                  Assign(created, newIds, level), Assign(rows, newIds, Records(level, ids)));
  }

  lemma UpdatedLevels(paths: set<Path>, depth: nat, before: Rows, ids: map<Path, Id>, created: map<Id, Path>,
                      rows: Rows,
                      level: seq<Path>, newIds: seq<Id>, ids': map<Path, Id>, created': map<Id, Path>, rows': Rows)
    requires Levels(paths, depth, before, ids, created, rows)
    requires |newIds| == |level| && NoDuplicates(newIds)
    requires forall p :: p in level <==> p in paths && |p| == depth + 1
    requires forall id :: id in newIds ==> id !in rows
    requires Updated(ids, level, newIds, ids')
    requires Updated(created, newIds, level, created')
    requires Updated(rows, newIds, Records(level, ids), rows')
    ensures Levels(paths, depth + 1, before, ids', created', rows')
  {
    hide Records, RecordFor, Updated, UpTo, Elements, NoDuplicates;
    UpdatedKeys(paths, depth, before, ids, created, rows, level, newIds, ids', created', rows');
    UpdatedIds(ids, created, rows, level, newIds, ids', created');
    forall id | id in created'
      ensures created'[id] in ids' && |created'[id]| > 0 && rows'[id] == RecordFor(created'[id], ids')
    {
      UpdatedRecord(paths, depth, ids, created, rows, level, newIds, ids', created', rows', id);
    }
  }

  lemma UpdatedKeys(paths: set<Path>, depth: nat, before: Rows, ids: map<Path, Id>, created: map<Id, Path>, rows: Rows,
                    level: seq<Path>, newIds: seq<Id>, ids': map<Path, Id>, created': map<Id, Path>, rows': Rows)
    requires ids.Keys == UpTo(paths, depth) && created.Keys !! before.Keys && rows.Keys == before.Keys + created.Keys
    requires forall id :: id in before ==> rows[id] == before[id]
    requires |newIds| == |level|
    requires forall p :: p in level <==> p in paths && |p| == depth + 1
    requires forall id :: id in newIds ==> id !in rows
    requires Updated(ids, level, newIds, ids')
    requires Updated(created, newIds, level, created')
    requires Updated(rows, newIds, Records(level, ids), rows')
    ensures ids'.Keys == UpTo(paths, depth + 1)
    ensures created'.Keys !! before.Keys && rows'.Keys == before.Keys + created'.Keys
    ensures forall id :: id in before ==> rows'[id] == before[id]
  {
    hide Records;
    assert forall id :: id in newIds <==> id in Elements(newIds);
    assert forall p :: p in level <==> p in Elements(level);
  }

  lemma UpdatedIds(ids: map<Path, Id>, created: map<Id, Path>, rows: Rows, level: seq<Path>, newIds: seq<Id>,
                   ids': map<Path, Id>, created': map<Id, Path>)
    requires forall p :: p in ids ==> ids[p] in created && created[ids[p]] == p
    requires |newIds| == |level| && NoDuplicates(newIds) && created.Keys <= rows.Keys
    requires forall id :: id in newIds ==> id !in rows
    requires Updated(ids, level, newIds, ids') && Updated(created, newIds, level, created')
    ensures forall p :: p in ids' ==> ids'[p] in created' && created'[ids'[p]] == p
  {
    forall p | p in ids' ensures ids'[p] in created' && created'[ids'[p]] == p {
      if p in level {
        var i :| 0 <= i < |level| && level[i] == p && ids'[p] == newIds[i];
        assert newIds[i] in newIds;
      }
    }
  }

  lemma UpdatedRecord(paths: set<Path>, depth: nat, ids: map<Path, Id>, created: map<Id, Path>, rows: Rows,
                      level: seq<Path>, newIds: seq<Id>, ids': map<Path, Id>, created': map<Id, Path>, rows': Rows,
                      id: Id)
    requires ids.Keys == UpTo(paths, depth) && created.Keys <= rows.Keys
    requires forall i :: i in created ==> created[i] in ids && |created[i]| > 0 && rows[i] == RecordFor(created[i], ids)
    requires |newIds| == |level| && NoDuplicates(newIds)
    requires forall p :: p in level <==> p in paths && |p| == depth + 1
    requires forall i :: i in newIds ==> i !in rows
    requires Updated(ids, level, newIds, ids')
    requires Updated(created, newIds, level, created')
    requires Updated(rows, newIds, Records(level, ids), rows')
    requires id in created'
    ensures created'[id] in ids' && |created'[id]| > 0 && rows'[id] == RecordFor(created'[id], ids')
  {
    if id in newIds {
      var i :| 0 <= i < |newIds| && newIds[i] == id && created'[id] == level[i];
      assert level[i] in level;
      var j :| 0 <= j < |newIds| && newIds[j] == id && rows'[id] == Records(level, ids)[j];
      assert i == j;
    }
    ParentStays(created'[id], ids, ids', level, newIds, depth);
  }

  lemma ParentStays(p: Path, ids: map<Path, Id>, ids': map<Path, Id>, level: seq<Path>, newIds: seq<Id>, depth: nat)
    requires 0 < |p| <= depth + 1 && |newIds| == |level|
    requires forall q :: q in level ==> |q| == depth + 1
    requires Updated(ids, level, newIds, ids')
    ensures RecordFor(p, ids') == RecordFor(p, ids)
  {
    assert |Above(p)| <= depth;
  }

  /** `[path for path in existing if len(path) == depth]`. */
  function OfDepth(existing: seq<Path>, depth: nat): seq<Path> {
    if existing == [] then []
    else (if |existing[0]| == depth then [existing[0]] else []) + OfDepth(existing[1..], depth)
  }

  lemma {:induction false} OfDepthMeans(existing: seq<Path>, depth: nat)
    ensures forall p :: p in OfDepth(existing, depth) <==> p in existing && |p| == depth
  {
    if existing != [] { OfDepthMeans(existing[1..], depth); }
  }

  lemma {:induction false} OfDepthDistinct(existing: seq<Path>, depth: nat)
    requires NoDuplicates(existing)
    ensures NoDuplicates(OfDepth(existing, depth))
  {
    if existing != [] {
      OfDepthDistinct(existing[1..], depth);
      OfDepthMeans(existing[1..], depth);
      assert existing[0] !in existing[1..];
    }
  }

  lemma SkipLevel(paths: set<Path>, depth: nat, before: Rows, ids: map<Path, Id>, created: map<Id, Path>, rows: Rows)
    requires Levels(paths, depth, before, ids, created, rows)
    requires forall p :: p in paths ==> |p| != depth + 1
    ensures Levels(paths, depth + 1, before, ids, created, rows)
  {
    assert UpTo(paths, depth + 1) == UpTo(paths, depth);
  }

  /** Distinct paths at each level get one record each. */
  lemma NextInjective(created: map<Id, Path>, level: seq<Path>, newIds: seq<Id>)
    requires |newIds| == |level| && NoDuplicates(newIds) && NoDuplicates(level)
    requires Injective(created) && forall id :: id in created ==> created[id] !in level
    ensures Injective(Assign(created, newIds, level))
  {
    AssignMeans(created, newIds, level);
    var after := Assign(created, newIds, level);
    forall a, b | a in after && b in after && after[a] == after[b] ensures a == b {
      if a in newIds { var i :| 0 <= i < |newIds| && newIds[i] == a && after[a] == level[i]; assert level[i] in level; }
      if b in newIds { var j :| 0 <= j < |newIds| && newIds[j] == b && after[b] == level[j]; assert level[j] in level; }
    }
  }

  lemma EarlierLevels(paths: set<Path>, depth: nat, before: Rows, ids: map<Path, Id>, created: map<Id, Path>,
                      rows: Rows,
                      level: seq<Path>)
    requires Levels(paths, depth, before, ids, created, rows)
    requires forall p :: p in level ==> |p| == depth + 1
    ensures forall id :: id in created ==> created[id] !in level
  {
  }

  /** A level lists the paths of its depth in the order of the fixture. */
  lemma {:induction false} LevelInOrder(first: seq<Path>, second: seq<Path>, depth: nat)
    ensures OfDepth(first + second, depth) == OfDepth(first, depth) + OfDepth(second, depth)
    ensures forall p: Path :: OfDepth([p], depth) == if |p| == depth then [p] else []
  {
    forall p: Path ensures OfDepth([p], depth) == if |p| == depth then [p] else [] {
      assert [p][1..] == [];
    }
    LevelsConcat(first, second, depth);
  }

  lemma {:induction false} LevelsConcat(first: seq<Path>, second: seq<Path>, depth: nat)
    ensures OfDepth(first + second, depth) == OfDepth(first, depth) + OfDepth(second, depth)
  {
    if first == [] {
      assert first + second == second;
    } else {
      var rest, all := first[1..], first + second;
      LevelsConcat(rest, second, depth);
      assert all[1..] == rest + second && all[0] == first[0];
      var head := if |first[0]| == depth then [first[0]] else [];
      assert OfDepth(all, depth) == head + OfDepth(rest + second, depth);
      assert OfDepth(first, depth) == head + OfDepth(rest, depth);
    }
  }

  ghost function SeedNames(paths: set<Path>): set<string> {
    set p | p in paths && |p| > 0 :: Leaf(p)
  }

  lemma NewRowsNamed(paths: set<Path>, depth: nat, before: Rows, ids: map<Path, Id>, created: map<Id, Path>, rows: Rows)
    requires Levels(paths, depth, before, ids, created, rows)
    ensures forall id :: id in rows && id !in before ==> rows[id].name in SeedNames(paths)
  {
    forall id | id in rows && id !in before ensures rows[id].name in SeedNames(paths) {
      assert created[id] in UpTo(paths, depth);
    }
  }

  lemma NewRowsIntegral(paths: set<Path>, depth: nat, before: Rows, ids: map<Path, Id>, created: map<Id, Path>,
                        rows: Rows)
    requires Levels(paths, depth, before, ids, created, rows) && ParentsPresent(before)
    ensures ParentsPresent(rows)
  {
  }

  // ---------- The round trip ----------

  ghost function LineagesRead(rows: Rows, created: map<Id, Path>): set<Option<Path>> {
    set id | id in created :: PathOf(rows, id, {})
  }

  ghost function Wanted(paths: set<Path>): set<Option<Path>> {
    set p | p in paths :: Some(p)
  }

  /** After all levels, the created records read back as exactly the paths asked for if and
      only if those are seedable; each parent was made one level before its children. */
  lemma SeedRoundTrip(paths: set<Path>, before: Rows, ids: map<Path, Id>, created: map<Id, Path>, rows: Rows)
    requires Levels(paths, MAX_DEPTH, before, ids, created, rows)
    ensures created.Keys <= rows.Keys
    ensures LineagesRead(rows, created) == Wanted(paths) <==> Seedable(paths)
    ensures forall id :: id in created && rows[id].parent.Some? ==>
      rows[id].parent.value in created && |created[rows[id].parent.value]| == |created[id]| - 1
  {
    hide Levels, PathOf, ReadBack, LineagesRead, Wanted, AllReadBack, Seedable, UpTo;
    AllLineages(paths, before, ids, created, rows);
    ReadIsReadBack(paths, created, rows);
    WantedInjective(AllReadBack(paths), paths);
    RoundTripIffSeedable(paths);
    ParentsEarlier(paths, MAX_DEPTH, before, ids, created, rows);
  }

  lemma ParentsEarlier(paths: set<Path>, depth: nat, before: Rows, ids: map<Path, Id>, created: map<Id, Path>,
                       rows: Rows)
    requires Levels(paths, depth, before, ids, created, rows)
    ensures forall id :: id in created && rows[id].parent.Some? ==>
      rows[id].parent.value in created && |created[rows[id].parent.value]| == |created[id]| - 1
  {
  }

  lemma AllLineages(paths: set<Path>, before: Rows, ids: map<Path, Id>, created: map<Id, Path>, rows: Rows)
    requires Levels(paths, MAX_DEPTH, before, ids, created, rows)
    ensures forall id :: id in created ==>
      && created[id] in UpTo(paths, MAX_DEPTH)
      && PathOf(rows, id, {}) == Some(ReadBack(UpTo(paths, MAX_DEPTH), created[id]))
    ensures forall p :: p in UpTo(paths, MAX_DEPTH) ==> exists id :: id in created && created[id] == p
    ensures created.Keys <= rows.Keys
  {
    forall id | id in created ensures PathOf(rows, id, {}) == Some(ReadBack(ids.Keys, created[id])) {
      CreatedLineage(paths, MAX_DEPTH, before, ids, created, rows, id, {});
    }
    forall p | p in ids ensures exists id :: id in created && created[id] == p { assert created[ids[p]] == p; }
  }

  lemma ReadIsReadBack(paths: set<Path>, created: map<Id, Path>, rows: Rows)
    requires forall id :: id in created ==>
      && created[id] in UpTo(paths, MAX_DEPTH)
      && PathOf(rows, id, {}) == Some(ReadBack(UpTo(paths, MAX_DEPTH), created[id]))
    requires forall p :: p in UpTo(paths, MAX_DEPTH) ==> exists id :: id in created && created[id] == p
    ensures LineagesRead(rows, created) == Wanted(AllReadBack(paths))
  {
    hide PathOf, ReadBack;
    var made := UpTo(paths, MAX_DEPTH);
    forall v | v in Wanted(AllReadBack(paths)) ensures v in LineagesRead(rows, created) {
      var p :| p in made && v == Some(ReadBack(made, p));
      var id :| id in created && created[id] == p;
    }
  }

  lemma WantedInjective(s: set<Path>, t: set<Path>)
    ensures Wanted(s) == Wanted(t) <==> s == t
  {
    if Wanted(s) == Wanted(t) {
      forall p ensures p in s <==> p in t {
        assert p in s <==> Some(p) in Wanted(s);
        assert p in t <==> Some(p) in Wanted(t);
      }
      assert s == t;
    }
  }
}
