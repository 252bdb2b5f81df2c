/** Seeding products in bounded batches, and the cleanup that runs whatever happens after. */
module BatchSeeding {
  import opened Orders
  import opened Wrappers

  type Id = nat
  type Values = string

  datatype Group = Group(name: string, values: seq<Values>)

  const MAX_UNLINK: nat := 2000

  // ---------- Batches ----------

  /** `values[start : start + limit] for start in range(0, len(values), limit)`. */
  function Chunks(values: seq<Values>, limit: nat): seq<seq<Values>>
    requires limit > 0
    decreases |values|
  {
    if |values| <= limit then (if values == [] then [] else [values])
    else [values[..limit]] + Chunks(values[limit..], limit)
  }

  ghost function Joined<T>(parts: seq<seq<T>>): seq<T> {
    if parts == [] then [] else parts[0] + Joined(parts[1..])
  }

  /** The batches are not empty, keep to the limit, and put together are the values in order. */
  lemma {:induction false} ChunksPartition(values: seq<Values>, limit: nat)
    requires limit > 0
    ensures forall c :: c in Chunks(values, limit) ==> 0 < |c| <= limit
    ensures Joined(Chunks(values, limit)) == values
    decreases |values|
  {
    if |values| <= limit {
      if values != [] { assert [values][1..] == []; }
    } else {
      ChunksPartition(values[limit..], limit);
      var rest := Chunks(values[limit..], limit);
      assert ([values[..limit]] + rest)[1..] == rest;
      assert values == values[..limit] + values[limit..];
    }
  }

  function Least(a: int, b: int): int { if a <= b then a else b }

  lemma NoChunks(limit: nat)
    requires limit > 0
    ensures Chunks([], limit) == []
  {
  }

  lemma ChunkStep(values: seq<Values>, start: nat, limit: nat)
    requires limit > 0 && start < |values|
    ensures var end := Least(start + limit, |values|);
      Chunks(values[start..], limit) == [values[start..end]] + Chunks(values[end..], limit)
  {
    var end := Least(start + limit, |values|);
    var left := values[start..];
    assert left[..end - start] == values[start..end] && left[end - start..] == values[end..];
    if |left| <= limit { assert values[end..] == [] && values[start..end] == left; }
  }

  ghost function AllChunks(groups: seq<Group>, limit: nat): seq<seq<Values>>
    requires limit > 0
  {
    if groups == [] then [] else Chunks(groups[0].values, limit) + AllChunks(groups[1..], limit)
  }

  lemma {:induction false} AllChunksStep(groups: seq<Group>, limit: nat)
    requires limit > 0 && groups != []
    ensures AllChunks(groups, limit) ==
      AllChunks(groups[..|groups| - 1], limit) + Chunks(groups[|groups| - 1].values, limit)
  {
    if |groups| > 1 {
      AllChunksStep(groups[1..], limit);
      assert groups[1..][..|groups| - 2] == groups[..|groups| - 1][1..];
      assert groups[1..][|groups| - 2] == groups[|groups| - 1];
    } else {
      assert groups[1..] == [] && groups[..0] == [];
    }
  }

  lemma {:induction false} JoinedAppend<T>(parts: seq<seq<T>>, part: seq<T>)
    ensures Joined(parts + [part]) == Joined(parts) + part
  {
    if parts == [] {
      assert [part][1..] == [];
    } else {
      JoinedAppend(parts[1..], part);
      assert (parts + [part])[1..] == parts[1..] + [part];
    }
  }

  // ---------- `_seed_products` and the `finally` of `main` ----------

  lemma {:induction false} JoinedMembers<T>(parts: seq<seq<T>>)
    ensures forall x :: x in Joined(parts) <==> exists i :: 0 <= i < |parts| && x in parts[i]
  {
    if parts != [] {
      JoinedMembers(parts[1..]);
      forall x
        ensures (exists i :: 0 <= i < |parts| && x in parts[i]) <==>
          x in parts[0] || exists i :: 0 <= i < |parts[1..]| && x in parts[1..][i]
      {
        if i :| 0 <= i < |parts| && x in parts[i] {
          assert i > 0 ==> parts[1..][i - 1] == parts[i];
        }
        if i :| 0 <= i < |parts[1..]| && x in parts[1..][i] {
          assert parts[i + 1] == parts[1..][i];
        }
      }
    }
  }

  /** No id was answered twice, in different batches. */
  ghost predicate BatchesDisjoint(batches: seq<seq<Id>>) {
    forall i, j :: 0 <= i < j < |batches| ==> Elements(batches[i]) !! Elements(batches[j])
  }

  /** What `unlink_exact_products` lets through. */
  ghost predicate Admissible(ids: seq<Id>) {
    0 < |ids| <= 2000 && 0 !in ids && forall i, j :: 0 <= i < j < |ids| ==> ids[i] != ids[j]
  }

  class Fixture {
    /** The products in the database. */
    var products: set<Id>
    /** `seeded`, a dictionary in insertion order: the ids of each group begun. */
    var seeded: seq<seq<Id>>
    const link: Link
    var requests: nat
    ghost const initial: set<Id>
    /** What the database answered, batch by batch. */
    var acknowledged: seq<seq<Id>>
    /** What it made without an answer. */
    ghost var unanswered: set<Id>
    ghost var sent: seq<seq<Values>>

    constructor (products: set<Id>, link: Link)
      ensures this.products == initial == products && this.link == link && requests == 0 && Accounted()
      ensures seeded == [] && acknowledged == [] && unanswered == {} && sent == []
    {
      this.products, initial, this.link, requests := products, products, link, 0;
      seeded, acknowledged, unanswered, sent := [], [], {}, [];
      new;
      assert Elements<Id>([]) == {};
    }

    /** Every product was there before, or was acknowledged, or was made without an answer,
        and no two of these; no batch is empty. */
    ghost predicate Accounted()
      reads this`products, this`acknowledged, this`unanswered
    {
      var acked := Elements(Joined(acknowledged));
      && products == initial + acked + unanswered
      && initial !! acked && initial !! unanswered && acked !! unanswered
      && BatchesDisjoint(acknowledged)
      && forall b :: b in acknowledged ==> b != []
    }

    /** The call is cut just after the answer to batch `cut`, before its ids are recorded. */
    ghost predicate CutAfterAnswer(cut: Option<nat>)
      reads this`acknowledged
    {
      cut.Some? && cut.value < |acknowledged|
    }

    ghost function Recorded(): seq<Id>
      reads this`seeded
    {
      Joined(seeded)
    }

    /** `create_rows`: the database makes one new record a row; the request may be refused, or
        its answer lost. */
    method CreateRows(values: seq<Values>) returns (ids: Option<seq<Id>>)
      requires Accounted() && values != []
      modifies this`products, this`sent, this`acknowledged, this`unanswered, this`requests
      ensures Accounted() && sent == old(sent) + [values] && requests == old(requests) + 1
      ensures ids.Some? <==> link(old(requests)) == Answered
      ensures acknowledged == if ids.Some? then old(acknowledged) + [ids.value] else old(acknowledged)
      ensures ids.Some? ==> |ids.value| == |values|
      ensures link(old(requests)) != Lost ==> unanswered == old(unanswered)
      ensures link(old(requests)) == Refused ==> products == old(products)
      ensures old(unanswered) <= unanswered
    {
      hide Joined, BatchesDisjoint;
      var answer := link(requests);
      sent, requests := sent + [values], requests + 1;
      if answer == Refused { return None; }
      var made := NewIds(products, |values|);
      products := products + Elements(made);
      if answer == Answered {
        BatchAdds(acknowledged, made);
        acknowledged := acknowledged + [made];
        return Some(made);
      }
      unanswered := unanswered + Elements(made);
      return None;
    }

    /** Whichever batch raises, the recorded ids are those the database acknowledged, all of
        them exactly unless an interruption falls between an answer and its record: then the
        last batch is missing. It raises exactly at that cut or when a request is not
        answered, and otherwise has sent every batch, in order. */
    method SeedProducts(groups: seq<Group>, limit: nat, cut: Option<nat>) returns (raised: bool)
      requires limit > 0 && Accounted() && seeded == [] && sent == [] && acknowledged == []
      modifies this
      ensures Accounted() && old(unanswered) <= unanswered
      ensures requests == old(requests) + |sent|
      ensures raised <==> CutAfterAnswer(cut) || !AllAnswered(link, old(requests), requests)
      ensures Recorded() == Joined(acknowledged) <==> !CutAfterAnswer(cut)
      ensures CutAfterAnswer(cut) ==>
        |acknowledged| == cut.value + 1 && Recorded() == Joined(acknowledged[..cut.value])
      ensures !raised ==> sent == AllChunks(groups, limit) && |seeded| == |groups| && unanswered == old(unanswered)
      ensures !raised ==> forall g :: 0 <= g < |groups| ==> |seeded[g]| == |groups[g].values|
    {
      hide Chunks, Joined, Accounted;
      for g := 0 to |groups|
        invariant Accounted() && unanswered == old(unanswered)
        invariant requests == old(requests) + |sent| && AllAnswered(link, old(requests), requests)
        invariant |seeded| == g && sent == AllChunks(groups[..g], limit)
        invariant Recorded() == Joined(acknowledged) && !CutAfterAnswer(cut)
        invariant forall k :: 0 <= k < g ==> |seeded[k]| == |groups[k].values|
      {
        raised := SeedGroup(groups[g].values, limit, cut);
        if raised { return; }
        assert groups[..g + 1][..g] == groups[..g];
        AllChunksStep(groups[..g + 1], limit);
      }
      assert groups[..|groups|] == groups;
      return false;
    }

    /** The inner loop, for one group. */
    method SeedGroup(values: seq<Values>, limit: nat, cut: Option<nat>) returns (raised: bool)
      requires limit > 0 && Accounted() && Recorded() == Joined(acknowledged) && !CutAfterAnswer(cut)
      modifies this
      ensures Accounted() && old(unanswered) <= unanswered
      ensures |old(sent)| <= |sent| && requests == old(requests) + |sent| - |old(sent)|
      ensures raised <==> CutAfterAnswer(cut) || !AllAnswered(link, old(requests), requests)
      ensures Recorded() == Joined(acknowledged) <==> !CutAfterAnswer(cut)
      ensures CutAfterAnswer(cut) ==>
        |acknowledged| == cut.value + 1 && Recorded() == Joined(acknowledged[..cut.value])
      ensures |seeded| == |old(seeded)| + 1 && seeded[..|old(seeded)|] == old(seeded)
      ensures !raised ==> sent == old(sent) + Chunks(values, limit) && |seeded[|old(seeded)|]| == |values|
      ensures !raised ==> unanswered == old(unanswered)
    {
      hide Chunks, Joined, Accounted;
      var g := |seeded|;
      JoinedAppend<Id>(seeded, []);
      seeded := seeded + [[]];
      var start := 0;
      NoChunks(limit);
      assert values[0..] == values;
      while start < |values|
        invariant 0 <= start && Accounted() && unanswered == old(unanswered)
        invariant |old(sent)| <= |sent| && requests == old(requests) + |sent| - |old(sent)|
        invariant AllAnswered(link, old(requests), requests)
        invariant Recorded() == Joined(acknowledged) && !CutAfterAnswer(cut)
        invariant |seeded| == g + 1 && seeded[..g] == old(seeded)
        invariant |seeded[g]| == Least(start, |values|)
        invariant sent + Chunks(values[Least(start, |values|)..], limit) == old(sent) + Chunks(values, limit)
        decreases |values| - start
      {
        var end := Least(start + limit, |values|);
        ChunkStep(values, start, limit);
        raised := SeedBatch(values[start..end], cut);
        if raised { return; }
        start := start + limit;
      }
      assert values[|values|..] == [];
      return false;
    }

    /** One batch: sent, answered, and recorded unless the cut comes between. */
    method SeedBatch(batch: seq<Values>, cut: Option<nat>) returns (raised: bool)
      requires batch != [] && seeded != []
      requires Accounted() && Recorded() == Joined(acknowledged) && !CutAfterAnswer(cut)
      modifies this
      ensures Accounted() && old(unanswered) <= unanswered && sent == old(sent) + [batch]
      ensures requests == old(requests) + 1
      ensures raised <==> CutAfterAnswer(cut) || link(old(requests)) != Answered
      ensures Recorded() == Joined(acknowledged) <==> !CutAfterAnswer(cut)
      ensures CutAfterAnswer(cut) ==>
        |acknowledged| == cut.value + 1 && Recorded() == Joined(acknowledged[..cut.value])
      ensures |seeded| == |old(seeded)|
      ensures var n := |seeded| - 1;
        && seeded[..n] == old(seeded)[..n]
        && (!raised ==> |seeded[n]| == |old(seeded)[n]| + |batch| && unanswered == old(unanswered))
    {
      hide Joined, Accounted;
      var before := acknowledged;
      var created := CreateRows(batch);
      if created.None? { return true; }
      JoinedAppend(before, created.value);
      assert acknowledged[..|before|] == before;
      if cut == Some(|before|) { return true; }
      Record(created.value);
      return false;
    }

    /** `result[name] = (*result[name], *created)`. */
    method Record(ids: seq<Id>)
      requires seeded != []
      modifies this`seeded
      ensures Recorded() == old(Recorded()) + ids && |seeded| == |old(seeded)|
      ensures var n := |seeded| - 1; seeded[..n] == old(seeded)[..n] && seeded[n] == old(seeded)[n] + ids
    {
      var n := |seeded| - 1;
      assert seeded == seeded[..n] + [seeded[n]];
      JoinedAppend(seeded[..n], seeded[n]);
      JoinedAppend(seeded[..n], seeded[n] + ids);
      seeded := seeded[n := seeded[n] + ids];
      assert seeded == old(seeded)[..n] + [old(seeded)[n] + ids];
    }

    /** `unlink_exact_products`: sends admissible ids only; then exactly these are deleted,
        unless the request is refused. */
    method UnlinkExact(ids: seq<Id>) returns (ok: bool)
      modifies this`products, this`requests
      ensures ok <==> Admissible(ids) && link(old(requests)) == Answered
      ensures products ==
        if Admissible(ids) && link(old(requests)) != Refused then old(products) - Elements(ids) else old(products)
      ensures requests == old(requests) + if Admissible(ids) then 1 else 0
    {
      var distinct := forall i, j :: 0 <= i < j < |ids| ==> ids[i] != ids[j];
      if ids == [] || |ids| > MAX_UNLINK || !distinct || 0 in ids { return false; }
      var answer := link(requests);
      requests := requests + 1;
      if answer != Refused { products := products - Elements(ids); }
      return answer == Answered;
    }

    /** The `finally` block: it succeeds exactly if the recorded ids are admissible and both its
        requests are answered; it deletes exactly those ids unless they are not admissible or
        the deletion is refused, and then nothing. */
    method Cleanup() returns (verified: bool)
      modifies this`products, this`requests
      ensures verified <==> Admissible(Recorded()) && AllAnswered(link, old(requests), requests)
      ensures products == if Admissible(Recorded()) && link(old(requests)) != Refused
                          then old(products) - Elements(Recorded()) else old(products)
      ensures requests <= old(requests) + 2
      ensures verified ==> requests == old(requests) + 2
    {
      var ids := [];
      assert seeded[..0] == [];
      for g := 0 to |seeded|
        invariant ids == Joined(seeded[..g]) && products == old(products) && requests == old(requests)
      {
        assert seeded[..g + 1] == seeded[..g] + [seeded[g]];
        JoinedAppend(seeded[..g], seeded[g]);
        ids := ids + seeded[g];
      }
      assert seeded[..|seeded|] == seeded;
      if ids == [] { return false; }
      var ok := UnlinkExact(ids);
      if !ok { return false; }
      var read := link(requests);
      requests := requests + 1;
      if read != Answered { return false; }
      return Elements(ids) * products == {};
    }

    /** `main`, from seeding to the end: however the seeding ends, the cleanup is verified
        exactly if the recorded ids are admissible and its requests are answered, and then
        leaves the products as they were, with those whose answer was lost and, after a cut
        between an answer and its record, that one batch. */
    method SeedAndClean(groups: seq<Group>, limit: nat, cut: Option<nat>) returns (raised: bool, verified: bool)
      requires limit > 0 && Accounted() && seeded == [] && sent == [] && acknowledged == [] && unanswered == {}
      modifies this
      ensures initial <= products
      ensures raised <==> CutAfterAnswer(cut) || !AllAnswered(link, old(requests), old(requests) + |sent|)
      ensures !raised ==> unanswered == {}
      ensures verified <==> Admissible(Recorded()) && AllAnswered(link, old(requests) + |sent|, requests)
      ensures verified && !CutAfterAnswer(cut) ==> products == initial + unanswered
      ensures verified && CutAfterAnswer(cut) ==>
        |acknowledged| == cut.value + 1 && products == initial + unanswered + Elements(acknowledged[cut.value])
      ensures verified && !raised ==> products == initial
    {
      hide Joined, AllChunks, NoDuplicates;
      raised := SeedProducts(groups, limit, cut);
      if CutAfterAnswer(cut) { LastBatch(acknowledged, cut.value); }
      verified := Cleanup();
    }
  }

  /** Any `count` ids that are not in use; a database that repeats one is not excluded. */
  method NewIds(used: set<Id>, count: nat) returns (ids: seq<Id>)
    ensures |ids| == count && Elements(ids) !! used
  {
    ids := *;
    if |ids| != count || exists id :: id in ids && id in used {
      var free: nat, rest := 0, used;
      while rest != {}
        invariant rest <= used && forall id :: id in used && id !in rest ==> id < free
        decreases rest
      {
        var id :| id in rest;
        free, rest := free + id + 1, rest - {id};
        assert forall x :: x in used && x !in rest ==> x == id || x < free;
      }
      ids := seq<Id>(count, (i: nat) => free + i);
    }
  }

  /** One more batch, of new ids. */
  lemma BatchAdds(batches: seq<seq<Id>>, made: seq<Id>)
    requires BatchesDisjoint(batches) && Elements(made) !! Elements(Joined(batches))
    ensures BatchesDisjoint(batches + [made])
    ensures Elements(Joined(batches + [made])) == Elements(Joined(batches)) + Elements(made)
  {
    JoinedAppend(batches, made);
    JoinedMembers(batches);
    hide Joined;
    forall i | 0 <= i < |batches| ensures Elements(batches[i]) !! Elements(made) {
      assert Elements(batches[i]) <= Elements(Joined(batches));
    }
  }

  lemma LastBatch(batches: seq<seq<Id>>, n: nat)
    requires |batches| == n + 1 && BatchesDisjoint(batches)
    ensures Elements(Joined(batches)) == Elements(Joined(batches[..n])) + Elements(batches[n])
    ensures Elements(Joined(batches[..n])) !! Elements(batches[n])
  {
    hide Joined;
    var earlier := batches[..n];
    assert batches == earlier + [batches[n]];
    JoinedAppend(earlier, batches[n]);
    JoinedMembers(earlier);
    forall x | x in Joined(earlier) ensures x !in Elements(batches[n]) {
      var i :| 0 <= i < n && x in earlier[i];
      assert x in Elements(batches[i]);
    }
  }
}
