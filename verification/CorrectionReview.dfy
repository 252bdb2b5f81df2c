/** The native correction review: which preparations cover an origin manifest, and why the
    evidence does not depend on the order of the prepared datasets. */
module CorrectionReview {
  import opened Orders
  import opened Wrappers
  import opened Counting

  datatype Snapshot = Snapshot(
    datasetId: string,
    workspaceId: string,
    mappingHash: string,
    sourceSnapshotHash: string,
    logicalHash: string,
    contentHash: string,
    parquetSha256: string,
    parquetStorageKey: string)

  /** One prepared dataset: the snapshot before and the snapshot after the correction. */
  datatype Dataset = Dataset(previous: Snapshot, corrected: Snapshot)

  datatype Artifact = Artifact(
    datasetId: string,
    logicalHash: string,
    contentHash: string,
    parquetSha256: string,
    parquetStorageKey: string)

  /** `corrected` is the list that is hashed and `batches` the order of the candidate files. */
  datatype Evidence = Evidence(mappingHash: string, corrected: seq<Snapshot>, batches: seq<Dataset>)

  datatype ReviewError = DoesNotCover | NotCurrent

  // ---------- `run` ----------

  predicate DatasetLeq(a: Dataset, b: Dataset) {
    NameLeq(a.previous.datasetId, b.previous.datasetId)
  }

  /** `{item.dataset_id: item for item in prepared_artifacts}`. */
  function Expected(artifacts: seq<Artifact>): (m: map<string, Artifact>)
    ensures m.Keys == set a | a in artifacts :: a.datasetId
    ensures forall id :: id in m ==> m[id] in artifacts && m[id].datasetId == id
  {
    if artifacts == [] then map[]
    else
      var n := |artifacts| - 1;
      assert artifacts == artifacts[..n] + [artifacts[n]];
      Expected(artifacts[..n])[artifacts[n].datasetId := artifacts[n]]
  }

  function DatasetIds(datasets: seq<Dataset>): set<string> {
    set d | d in datasets :: d.previous.datasetId
  }

  /** The hashes of the artifact are those of the snapshot before the correction. */
  predicate SameEvidence(a: Artifact, s: Snapshot) {
    && a.logicalHash == s.logicalHash
    && a.contentHash == s.contentHash
    && a.parquetSha256 == s.parquetSha256
    && a.parquetStorageKey == s.parquetStorageKey
  }

  predicate IsCurrent(expected: map<string, Artifact>, workspaceId: string, mappingHash: string, d: Dataset) {
    && d.previous.datasetId in expected
    && SameEvidence(expected[d.previous.datasetId], d.previous)
    && d.corrected.workspaceId == workspaceId
    && d.corrected.sourceSnapshotHash == d.previous.sourceSnapshotHash
    && d.corrected.mappingHash == mappingHash
  }

  function CorrectedOf(datasets: seq<Dataset>): seq<Snapshot> {
    seq(|datasets|, i requires 0 <= i < |datasets| => datasets[i].corrected)
  }

  function Review(prepared: seq<Dataset>, artifacts: seq<Artifact>, workspaceId: string, mappingHash: string)
    : Result<Evidence, ReviewError>
  {
    var datasets := SortBy(DatasetLeq, prepared);
    var expected := Expected(artifacts);
    if datasets == [] || |datasets| != |expected| || |DatasetIds(datasets)| != |datasets|
       || mappingHash != datasets[0].corrected.mappingHash
    then Err(DoesNotCover)
    else if exists d :: d in datasets && !IsCurrent(expected, workspaceId, mappingHash, d) then Err(NotCurrent)
    else Ok(Evidence(mappingHash, CorrectedOf(datasets), datasets))
  }

  // ---------- What acceptance means ----------

  ghost predicate DistinctDatasets(datasets: seq<Dataset>) {
    forall i, j :: 0 <= i < j < |datasets| ==> datasets[i].previous.datasetId != datasets[j].previous.datasetId
  }

  /** Datasets and artifact ids correspond one to one, with the same hashes, and every
      correction belongs to the successor workspace, the same source and the new mapping. */
  ghost predicate Covers(prepared: seq<Dataset>, artifacts: seq<Artifact>, workspaceId: string, mappingHash: string) {
    && prepared != []
    && DistinctDatasets(prepared)
    && (forall a :: a in artifacts ==> exists d :: d in prepared && d.previous.datasetId == a.datasetId)
    && (forall d :: d in prepared ==> IsCurrent(Expected(artifacts), workspaceId, mappingHash, d))
  }

  /** Accepted are exactly the preparations that cover the origin: equal counts, distinct
      datasets and membership leave no artifact without its dataset. */
  lemma AcceptedIffCovers(prepared: seq<Dataset>, artifacts: seq<Artifact>, workspaceId: string, mappingHash: string)
    ensures Review(prepared, artifacts, workspaceId, mappingHash).Ok? <==>
      Covers(prepared, artifacts, workspaceId, mappingHash)
  {
    if Covers(prepared, artifacts, workspaceId, mappingHash) {
      CoversIsAccepted(prepared, artifacts, workspaceId, mappingHash);
    }
    if Review(prepared, artifacts, workspaceId, mappingHash).Ok? {
      AcceptedCovers(prepared, artifacts, workspaceId, mappingHash);
    }
  }

  /** The artifact is the last listed for its dataset, as in a dictionary. */
  ghost predicate ListedLast(artifacts: seq<Artifact>, k: int) {
    0 <= k < |artifacts| && forall j :: k < j < |artifacts| ==> artifacts[j].datasetId != artifacts[k].datasetId
  }

  /** The dataset has the four hashes its artifact is listed with, and its correction is for
      this workspace, from the same source and with the new mapping. */
  ghost predicate Agrees(artifacts: seq<Artifact>, workspaceId: string, mappingHash: string, d: Dataset) {
    && (exists k :: ListedLast(artifacts, k) && artifacts[k] ==
          Artifact(d.previous.datasetId, d.previous.logicalHash, d.previous.contentHash, d.previous.parquetSha256,
                   d.previous.parquetStorageKey))
    && d.corrected.workspaceId == workspaceId
    && d.corrected.sourceSnapshotHash == d.previous.sourceSnapshotHash
    && d.corrected.mappingHash == mappingHash
  }

  lemma ExpectedGrows(artifacts: seq<Artifact>)
    ensures artifacts != [] ==>
      var n := |artifacts| - 1;
      Expected(artifacts) == Expected(artifacts[..n])[artifacts[n].datasetId := artifacts[n]]
    ensures artifacts == [] ==> Expected(artifacts) == map[]
  {
  }

  lemma {:induction false} LastListed(artifacts: seq<Artifact>, k: int)
    requires ListedLast(artifacts, k)
    ensures artifacts[k].datasetId in Expected(artifacts) && Expected(artifacts)[artifacts[k].datasetId] == artifacts[k]
  {
    hide Expected;
    ExpectedGrows(artifacts);
    var n := |artifacts| - 1;
    if k < n {
      assert forall j :: k < j < n ==> artifacts[..n][j] == artifacts[j];
      LastListed(artifacts[..n], k);
    }
  }

  lemma {:induction false} ExpectedListed(artifacts: seq<Artifact>, id: string)
    requires id in Expected(artifacts)
    ensures exists k ::
      ListedLast(artifacts, k) && artifacts[k].datasetId == id && Expected(artifacts)[id] == artifacts[k]
  {
    hide Expected;
    var n := |artifacts| - 1;
    var earlier := artifacts[..n];
    ExpectedGrows(artifacts);
    if artifacts[n].datasetId == id {
      assert ListedLast(artifacts, n);
    } else {
      ExpectedListed(earlier, id);
      var k :| ListedLast(earlier, k) && earlier[k].datasetId == id && Expected(earlier)[id] == earlier[k];
      assert forall j :: k < j < n ==> earlier[j] == artifacts[j];
      assert ListedLast(artifacts, k);
    }
  }

  lemma CurrentMeans(artifacts: seq<Artifact>, workspaceId: string, mappingHash: string, d: Dataset)
    ensures IsCurrent(Expected(artifacts), workspaceId, mappingHash, d) <==>
      Agrees(artifacts, workspaceId, mappingHash, d)
  {
    var id := d.previous.datasetId;
    if id in Expected(artifacts) {
      ExpectedListed(artifacts, id);
      var k :| ListedLast(artifacts, k) && artifacts[k].datasetId == id && Expected(artifacts)[id] == artifacts[k];
    }
    if k :| ListedLast(artifacts, k) && artifacts[k].datasetId == id { LastListed(artifacts, k); }
  }

  /** Accepted is a preparation if and only if its datasets are some, distinct, one for every
      listed artifact, and each agrees. */
  lemma AcceptedMeans(prepared: seq<Dataset>, artifacts: seq<Artifact>, workspaceId: string, mappingHash: string)
    ensures Review(prepared, artifacts, workspaceId, mappingHash).Ok? <==>
      && prepared != []
      && (forall i, j :: 0 <= i < j < |prepared| ==> prepared[i].previous.datasetId != prepared[j].previous.datasetId)
      && (forall a :: a in artifacts ==> exists d :: d in prepared && d.previous.datasetId == a.datasetId)
      && (forall d :: d in prepared ==> Agrees(artifacts, workspaceId, mappingHash, d))
  {
    AcceptedIffCovers(prepared, artifacts, workspaceId, mappingHash);
    hide Review, IsCurrent, Agrees, Expected;
    forall d ensures IsCurrent(Expected(artifacts), workspaceId, mappingHash, d) <==>
        Agrees(artifacts, workspaceId, mappingHash, d)
    {
      CurrentMeans(artifacts, workspaceId, mappingHash, d);
    }
  }

  /** What is hashed and written: the new mapping, all datasets in the order of their ids, and
      their corrected snapshots in the same order. */
  lemma EvidenceMeans(prepared: seq<Dataset>, artifacts: seq<Artifact>, workspaceId: string, mappingHash: string)
    requires Review(prepared, artifacts, workspaceId, mappingHash).Ok?
    ensures var e := Review(prepared, artifacts, workspaceId, mappingHash).value;
      && e.mappingHash == mappingHash
      && multiset(e.batches) == multiset(prepared)
      && (forall i, j :: 0 <= i < j < |e.batches| ==>
            NameLeq(e.batches[i].previous.datasetId, e.batches[j].previous.datasetId))
      && |e.corrected| == |e.batches|
      && (forall i :: 0 <= i < |e.batches| ==> e.corrected[i] == e.batches[i].corrected)
  {
    hide IsCurrent, Expected, SortBy;
    SortedById(prepared);
  }

  /** No dataset has a smaller id. */
  ghost predicate ComesFirst(prepared: seq<Dataset>, d: Dataset) {
    d in prepared && forall e :: e in prepared ==> NameLeq(d.previous.datasetId, e.previous.datasetId)
  }

  /** Which failure a refusal reports: the counts, repeated ids and the mapping of the first
      dataset are checked before the single datasets. */
  lemma RefusalMeans(prepared: seq<Dataset>, artifacts: seq<Artifact>, workspaceId: string, mappingHash: string)
    ensures var r := Review(prepared, artifacts, workspaceId, mappingHash);
      && (r == Err(DoesNotCover) <==>
            || prepared == []
            || |prepared| != |set a | a in artifacts :: a.datasetId|
            || !DistinctDatasets(prepared)
            || exists d :: ComesFirst(prepared, d) && d.corrected.mappingHash != mappingHash)
      && (r == Err(NotCurrent) <==>
            && r != Err(DoesNotCover)
            && exists d :: d in prepared && !Agrees(artifacts, workspaceId, mappingHash, d))
  {
    SortedFacts(prepared);
    IdCount(prepared);
    forall d
      ensures IsCurrent(Expected(artifacts), workspaceId, mappingHash, d) <==>
        Agrees(artifacts, workspaceId, mappingHash, d)
    {
      CurrentMeans(artifacts, workspaceId, mappingHash, d);
    }
    if prepared != [] && DistinctDatasets(prepared) { FirstIsFirst(prepared); }
    hide SortBy, IsCurrent, Agrees, DistinctDatasets, ComesFirst;
    assert Expected(artifacts).Keys == set a | a in artifacts :: a.datasetId;
  }

  lemma FirstIsFirst(prepared: seq<Dataset>)
    requires prepared != [] && DistinctDatasets(prepared)
    ensures |SortBy(DatasetLeq, prepared)| > 0
    ensures forall d :: ComesFirst(prepared, d) <==> d == SortBy(DatasetLeq, prepared)[0]
  {
    var datasets := SortBy(DatasetLeq, prepared);
    SortedFacts(prepared);
    SortedById(prepared);
    NameOrders();
    hide SortBy, NameLeq;
    assert datasets[0] in prepared;
    forall e | e in prepared ensures DatasetLeq(datasets[0], e) {
      var i :| 0 <= i < |datasets| && datasets[i] == e;
      assert i == 0 || DatasetLeq(datasets[0], datasets[i]);
    }
    forall d | ComesFirst(prepared, d) ensures d == datasets[0] {
      var i :| 0 <= i < |prepared| && prepared[i] == d;
      var j :| 0 <= j < |prepared| && prepared[j] == datasets[0];
      assert prepared[i].previous.datasetId == prepared[j].previous.datasetId;
    }
  }

  lemma SortedFacts(prepared: seq<Dataset>)
    ensures var datasets := SortBy(DatasetLeq, prepared);
      && |datasets| == |prepared| && (forall d :: d in datasets <==> d in prepared)
      && DatasetIds(datasets) == DatasetIds(prepared)
  {
    SameMembers(SortBy(DatasetLeq, prepared), prepared);
  }

  lemma AcceptedCovers(prepared: seq<Dataset>, artifacts: seq<Artifact>, workspaceId: string, mappingHash: string)
    requires Review(prepared, artifacts, workspaceId, mappingHash).Ok?
    ensures Covers(prepared, artifacts, workspaceId, mappingHash)
  {
    hide SortBy, SameEvidence;
    var expected := Expected(artifacts);
    SortedFacts(prepared);
    IdCount(prepared);
    assert forall id :: id in DatasetIds(prepared) ==> id in expected.Keys;
    SubsetSize(DatasetIds(prepared), expected.Keys);
    forall a | a in artifacts ensures exists d :: d in prepared && d.previous.datasetId == a.datasetId {
      assert a.datasetId in DatasetIds(prepared);
    }
  }

  lemma CoversIsAccepted(prepared: seq<Dataset>, artifacts: seq<Artifact>, workspaceId: string, mappingHash: string)
    requires Covers(prepared, artifacts, workspaceId, mappingHash)
    ensures Review(prepared, artifacts, workspaceId, mappingHash).Ok?
  {
    hide SortBy, SameEvidence, Expected, DistinctDatasets, DatasetIds;
    CoversCounts(prepared, artifacts, workspaceId, mappingHash);
    SortedFacts(prepared);
    assert SortBy(DatasetLeq, prepared)[0] in prepared;
  }

  lemma CoversCounts(prepared: seq<Dataset>, artifacts: seq<Artifact>, workspaceId: string, mappingHash: string)
    requires Covers(prepared, artifacts, workspaceId, mappingHash)
    ensures |prepared| == |DatasetIds(prepared)| == |Expected(artifacts)|
  {
    hide SameEvidence, DistinctDatasets;
    var expected := Expected(artifacts);
    IdCount(prepared);
    forall id | id in expected.Keys ensures id in DatasetIds(prepared) {
      var d :| d in prepared && d.previous.datasetId == expected[id].datasetId;
    }
    assert DatasetIds(prepared) == expected.Keys;
  }

  lemma SameIds(a: seq<Dataset>, b: seq<Dataset>)
    requires forall d :: d in a <==> d in b
    ensures DatasetIds(a) == DatasetIds(b)
  {
  }

  lemma {:induction false} IdCount(datasets: seq<Dataset>)
    ensures |DatasetIds(datasets)| <= |datasets|
    ensures |DatasetIds(datasets)| == |datasets| <==> DistinctDatasets(datasets)
  {
    if datasets != [] {
      var n := |datasets| - 1;
      var rest, id := datasets[..n], datasets[n].previous.datasetId;
      IdCount(rest);
      assert datasets == rest + [datasets[n]];
      assert DatasetIds(datasets) == DatasetIds(rest) + {id};
      LastDistinct(datasets);
    }
  }

  lemma LastDistinct(datasets: seq<Dataset>)
    requires datasets != []
    ensures var n := |datasets| - 1;
      DistinctDatasets(datasets) <==>
        DistinctDatasets(datasets[..n]) && datasets[n].previous.datasetId !in DatasetIds(datasets[..n])
  {
    var n := |datasets| - 1;
    var rest, id := datasets[..n], datasets[n].previous.datasetId;
    assert forall i :: 0 <= i < n ==> rest[i] == datasets[i] && rest[i] in rest;
    if id in DatasetIds(rest) {
      var d :| d in rest && d.previous.datasetId == id;
      var i :| 0 <= i < n && rest[i] == d;
      assert datasets[i].previous.datasetId == datasets[n].previous.datasetId;
    }
  }

  // ---------- The order of the inputs ----------

  function Ids(datasets: seq<Dataset>): seq<string> {
    seq(|datasets|, i requires 0 <= i < |datasets| => datasets[i].previous.datasetId)
  }

  /** Sorting distinct datasets by id gives the same list for every permutation. */
  lemma SortedAlike(a: seq<Dataset>, b: seq<Dataset>)
    requires multiset(a) == multiset(b) && DistinctDatasets(a)
    ensures SortBy(DatasetLeq, a) == SortBy(DatasetLeq, b)
  {
    hide SortBy, Sorted, DatasetLeq;
    SortedFacts(a);
    SortedFacts(b);
    SortedById(a);
    SortedById(b);
    SameMembers(a, b);
    SameIds(a, b);
    IdCount(a);
    ListedById(SortBy(DatasetLeq, a), SortBy(DatasetLeq, b));
  }

  /** Lists of the same datasets, each with its own id and in the order of the ids, are equal. */
  lemma ListedById(s: seq<Dataset>, t: seq<Dataset>)
    requires |s| == |t| && |DatasetIds(s)| == |s| && forall d :: d in s <==> d in t
    requires Sorted(NameLeq, Ids(s)) && Sorted(NameLeq, Ids(t))
    ensures s == t
  {
    hide Sorted, NameLeq, TotalOrder;
    SameIds(s, t);
    DistinctListed(s);
    DistinctListed(t);
    NameOrders();
    SortedListingUnique(NameLeq, Ids(s), Ids(t));
    forall i | 0 <= i < |s| ensures s[i] == t[i] {
      assert s[i] in t;
      var j :| 0 <= j < |t| && t[j] == s[i];
      assert Ids(t)[j] == Ids(s)[i] == Ids(t)[i];
    }
  }

  lemma DistinctListed(s: seq<Dataset>)
    requires |DatasetIds(s)| == |s|
    ensures NoDuplicates(Ids(s)) && Elements(Ids(s)) == DatasetIds(s) && |Ids(s)| == |s|
  {
    IdCount(s);
    IdsListed(s);
  }

  lemma IdsListed(datasets: seq<Dataset>)
    ensures Elements(Ids(datasets)) == DatasetIds(datasets)
  {
    forall id | id in DatasetIds(datasets) ensures id in Ids(datasets) {
      var d :| d in datasets && d.previous.datasetId == id;
      var i :| 0 <= i < |datasets| && datasets[i] == d;
      assert Ids(datasets)[i] == id;
    }
  }

  lemma {:induction false} SortedById(datasets: seq<Dataset>)
    ensures Sorted(DatasetLeq, SortBy(DatasetLeq, datasets))
    ensures Sorted(NameLeq, Ids(SortBy(DatasetLeq, datasets)))
  {
    NameOrders();
    SortBySorted(DatasetLeq, datasets);
  }

  /** The outcome, evidence and batch order included, is the same for every permutation of
      the prepared datasets, accepted or not. */
  lemma ReviewIgnoresOrder(prepared: seq<Dataset>, permuted: seq<Dataset>, artifacts: seq<Artifact>,
                           workspaceId: string, mappingHash: string)
    requires multiset(prepared) == multiset(permuted)
    ensures Review(prepared, artifacts, workspaceId, mappingHash) ==
      Review(permuted, artifacts, workspaceId, mappingHash)
  {
    hide SortBy, IsCurrent, DistinctDatasets;
    SameMembers(prepared, permuted);
    SortedFacts(prepared);
    SortedFacts(permuted);
    SameIds(prepared, permuted);
    IdCount(prepared);
    if DistinctDatasets(prepared) {
      SortedAlike(prepared, permuted);
    }
  }
}
