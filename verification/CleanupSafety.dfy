/** Why an accepted cleanup is safe: the states it passes through, and what is left. */
module CleanupSafety {
  import opened Wrappers
  import opened Lineage
  import opened Store
  import opened TargetChecks

  /** What the run owns. */
  datatype Claim = Claim(categories: set<Id>, products: set<Id>, externalIds: set<ExternalId>)

  /** The records in scope are exactly the owned ones. */
  predicate OwnsScope(f: Fixture, claim: Claim, d: Database) {
    ScopeCategories(f, d).Keys == claim.categories && ScopeProducts(f, d).Keys == claim.products
  }

  function AttachedToOwned(d: Database, claim: Claim): set<Id> {
    Attached(d, CategoryModel, claim.categories) + Attached(d, ProductModel, claim.products)
  }

  /** Why bindings make `cleanup` refuse: some owned record has a name that is not an owned
      one, or (remotely) the owned names also select other bindings. */
  ghost predicate ForeignNames(remote: bool, claim: Claim, d: Database) {
    var attached, named := AttachedToOwned(d, claim), NamedBindings(d, claim.externalIds);
    || !NamesKnown(d, attached, claim.externalIds)
    || (remote && !(NamesKnown(d, named, claim.externalIds) && named <= attached))
  }

  /** All checks of `cleanup` passed, and `explicit` are the bindings to delete by name. */
  ghost predicate Accepted(f: Fixture, claim: Claim, d: Database, explicit: set<Id>) {
    && Verified(f, d)
    && OwnsScope(f, claim, d)
    && NoForeignDependents(d, claim.categories, claim.products)
    && (forall b :: b in AttachedToOwned(d, claim) ==> d.bindings[b].externalId in claim.externalIds)
    && explicit <= AttachedToOwned(d, claim)
  }

  /** The bindings to delete by name. */
  function Explicit(remote: bool, claim: Claim, d: Database): set<Id> {
    if remote then NamedBindings(d, claim.externalIds) else {}
  }

  /** The databases whose owned records `cleanup` may delete. */
  ghost predicate Acceptable(f: Fixture, remote: bool, claim: Claim, d: Database) {
    && Verified(f, d)
    && OwnsScope(f, claim, d)
    && NoForeignDependents(d, claim.categories, claim.products)
    && !ForeignNames(remote, claim, d)
  }

  /** What `cleanup` reads before it deletes is below the limit. */
  ghost predicate ChecksReadable(f: Fixture, remote: bool, claim: Claim, d: Database) {
    && BusinessReadable(f, d)
    && DependentsReadable(claim, d)
    && BindingsReadable(remote, claim, d)
  }

  ghost predicate DependentsReadable(claim: Claim, d: Database) {
    && |LinkedProducts(d, claim.categories)| < READ_LIMIT
    && |ChildCategories(d, claim.categories)| < READ_LIMIT
  }

  ghost predicate BindingsReadable(remote: bool, claim: Claim, d: Database) {
    && |Attached(d, CategoryModel, claim.categories)| < READ_LIMIT
    && |Attached(d, ProductModel, claim.products)| < READ_LIMIT
    && |Explicit(remote, claim, d)| < READ_LIMIT
  }

  lemma AcceptableIsAccepted(f: Fixture, remote: bool, claim: Claim, d: Database)
    requires Acceptable(f, remote, claim, d)
    ensures Accepted(f, claim, d, Explicit(remote, claim, d))
  {
  }

  /** What a failed check of `cleanup` has found. */
  ghost predicate CheckFits(f: Fixture, remote: bool, claim: Claim, d: Database, e: Failure) {
    match e
    case OwnershipMismatch => !OwnsScope(f, claim, d)
    case ForeignDependent => !NoForeignDependents(d, claim.categories, claim.products)
    case ExternalIdMismatch => ForeignNames(remote, claim, d)
    case _ => e in CHECK_ONLY ==> FailureFits(f, d, e)
  }

  lemma BusinessFailureFits(f: Fixture, remote: bool, claim: Claim, d: Database, e: Failure)
    requires e in {Unavailable, FixtureReadTruncated} || FailureFits(f, d, e)
    ensures e in CHECK_FAILURES && CheckFits(f, remote, claim, d, e)
  {
  }

  /** The state after the bindings, and the state after the products as well. */
  lemma BindingsAndProductsSafe(f: Fixture, claim: Claim, before: Database, explicit: set<Id>)
    requires Integrity(before) && Accepted(f, claim, before, explicit)
    ensures SafeFor(claim, before, before) && SafeFor(claim, before, UnlinkBindings(before, explicit))
    ensures explicit == {} ==> UnlinkBindings(before, explicit) == before
    ensures var after := UnlinkProducts(UnlinkBindings(before, explicit), claim.products);
      && AtStage(claim, before, explicit, claim.categories, after) && SafeFor(claim, before, after)
      && (claim.products == {} ==> after == UnlinkBindings(before, explicit))
  {
    hide Verified, Integrity, NoForeignDependents, UnlinkBindings, UnlinkProducts, Safe, Stage, Attached, ScopeProducts;
    FirstStage(before, claim.categories, claim.products, explicit);
    UnlinkNothing(before, claim.products, explicit);
    NamedSafe(before, claim.categories, claim.products, explicit);
    StageSafe(before, claim.categories, claim.products, explicit, claim.categories);
  }

  lemma NamedSafe(before: Database, categories: set<Id>, products: set<Id>, explicit: set<Id>)
    requires Integrity(before)
    requires explicit <= Attached(before, CategoryModel, categories) + Attached(before, ProductModel, products)
    ensures Safe(before, categories, products, before)
    ensures Safe(before, categories, products, UnlinkBindings(before, explicit))
  {
  }

  lemma FirstStage(before: Database, categories: set<Id>, products: set<Id>, explicit: set<Id>)
    ensures UnlinkProducts(UnlinkBindings(before, explicit), products) ==
      Stage(before, categories, products, explicit, categories)
  {
    var named := UnlinkBindings(before, explicit);
    var after := UnlinkProducts(named, products);
    var stage := Stage(before, categories, products, explicit, categories);
    assert categories - categories == {};
    assert Attached(before, CategoryModel, {}) == {};
    assert VariantsOf(named, products) == VariantsOf(before, products);
    assert after.bindings.Keys == stage.bindings.Keys;
    assert after.bindings == stage.bindings;
    assert after.categories == stage.categories;
  }

  lemma UnlinkNothing(before: Database, products: set<Id>, explicit: set<Id>)
    ensures explicit == {} ==> UnlinkBindings(before, explicit) == before
    ensures products == {} ==>
      UnlinkProducts(UnlinkBindings(before, explicit), products) == UnlinkBindings(before, explicit)
  {
    var named := UnlinkBindings(before, explicit);
    assert Attached(named, ProductModel, {}) == {};
    assert VariantsOf(named, {}) == {};
  }

  /** With every owned record gone nothing of the run is left to find. */
  lemma NothingRemains(f: Fixture, claim: Claim, before: Database, explicit: set<Id>, d: Database)
    requires Integrity(before) && Accepted(f, claim, before, explicit) && AtStage(claim, before, explicit, {}, d)
    ensures d == WithoutOwned(before, claim.categories, claim.products)
    ensures ScopeEmpty(f, d)
    ensures VariantsOf(d, claim.products) == {} && explicit !! d.bindings.Keys
  {
    LastStage(before, claim.categories, claim.products, explicit);
    ScopeGone(f, before, claim.categories, claim.products);
  }

  lemma ScopeGone(f: Fixture, before: Database, categories: set<Id>, products: set<Id>)
    requires ScopeCategories(f, before).Keys == categories && ScopeProducts(f, before).Keys == products
    ensures var d := WithoutOwned(before, categories, products);
      ScopeCategories(f, d) == map[] && ScopeProducts(f, d) == map[] && VariantsOf(d, products) == {}
  {
    var d := WithoutOwned(before, categories, products);
    assert forall id :: id in ScopeCategories(f, d) ==> id in ScopeCategories(f, before).Keys;
    assert forall id :: id in ScopeProducts(f, d) ==> id in ScopeProducts(f, before).Keys;
  }

  lemma NothingSent(claim: Claim, before: Database, start: seq<Database>)
    ensures SafeSince(claim, before, start, start)
    ensures Integrity(before) ==> SafeFor(claim, before, before)
    ensures SafeFor(claim, before, before) ==> OnlyOwnedRemoved(before, claim.categories, claim.products, before)
  {
  }

  lemma SafeThrough(claim: Claim, before: Database, start: seq<Database>, mid: seq<Database>, end: seq<Database>)
    requires SafeSince(claim, before, start, mid) && SafeSince(claim, before, mid, end)
    ensures SafeSince(claim, before, start, end)
  {
  }

  lemma AcceptedMeans(f: Fixture, claim: Claim, d: Database, explicit: set<Id>)
    requires Accepted(f, claim, d, explicit)
    ensures Verified(f, d)
    ensures OwnsScope(f, claim, d)
    ensures forall after :: SafeFor(claim, d, after) ==>
      Integrity(after) && OnlyOwnedRemoved(d, claim.categories, claim.products, after)
  {
  }

  lemma CheckFailureKinds(e: Failure)
    requires e in CHECK_FAILURES
    ensures e in CHECK_FAILURES + {CleanupUncertain}
  {
  }

  lemma LateFailureKinds(e: Failure)
    requires e in {Unavailable, FixtureReadTruncated, CleanupUncertain} || e == CleanupUncertain
    ensures e in CHECK_FAILURES + {CleanupUncertain} && e !in CHECK_ONLY
  {
  }

  ghost predicate SafeFor(claim: Claim, before: Database, after: Database) {
    Safe(before, claim.categories, claim.products, after)
  }

  ghost predicate AtStage(claim: Claim, before: Database, explicit: set<Id>, left: set<Id>, d: Database) {
    d == Stage(before, claim.categories, claim.products, explicit, left)
  }

  /** Every state since `start` is integral and lacks only owned records. */
  ghost predicate SafeSince(claim: Claim, before: Database, start: seq<Database>, now: seq<Database>) {
    start <= now && forall i :: |start| <= i < |now| ==> SafeFor(claim, before, now[i])
  }

  /** Round `k` unlinked exactly the categories of height `k`. */
  ghost predicate ByHeight(rows: Rows, rounds: seq<set<Id>>) {
    forall k :: 0 <= k < |rounds| ==> rounds[k] == AtHeight(rows, k) && rounds[k] != {}
  }

  lemma NextRound(rows: Rows, rounds: seq<set<Id>>, leaves: set<Id>)
    requires ByHeight(rows, rounds) && leaves == AtHeight(rows, |rounds|) && leaves != {}
    ensures ByHeight(rows, rounds + [leaves])
  {
  }

  ghost predicate InRound(rounds: seq<set<Id>>, k: nat, id: Id) {
    k < |rounds| && id in rounds[k]
  }

  /** Every category left in exactly one round, and in an earlier one than its parent. */
  lemma RoundsInOrder(rows: Rows, rounds: seq<set<Id>>)
    requires RoundsByHeight(rows, rounds)
    ensures forall id :: id in rows ==> exists k: nat :: InRound(rounds, k, id)
    ensures forall j: nat, k: nat, id :: InRound(rounds, j, id) && InRound(rounds, k, id) ==> j == k
    ensures forall j: nat, k: nat, child: Id, id: Id :: InRound(rounds, j, child) && InRound(rounds, k, id) ==>
      child in rows && (rows[child].parent == Some(id) ==> j < k)
  {
    hide Descends;
    forall id | id in rows ensures exists k: nat :: InRound(rounds, k, id) { LeavesSomeRound(rows, rounds, id); }
    forall j: nat, k: nat, id | InRound(rounds, j, id) && InRound(rounds, k, id) ensures j == k {
      HeightUnique(rows, id, j, k);
    }
    forall j: nat, k: nat, child: Id, id: Id | InRound(rounds, j, child) && InRound(rounds, k, id)
      ensures child in rows && (rows[child].parent == Some(id) ==> j < k)
    {
      if rows[child].parent == Some(id) { ChildIsLower(rows, child, id, j, k); }
    }
  }

  lemma LeavesSomeRound(rows: Rows, rounds: seq<set<Id>>, id: Id)
    requires RoundsByHeight(rows, rounds) && id in rows
    ensures exists k: nat :: InRound(rounds, k, id)
  {
    hide Descends;
    DescentStart(rows);
    assert id in AtLeast(rows, 0) && id !in AtLeast(rows, |rounds|);
    var h := HeightBelow(rows, id, |rounds|);
    assert id in AtHeight(rows, h);
    assert InRound(rounds, h, id);
  }

  /** The rounds go by height and took every category. */
  ghost predicate RoundsByHeight(rows: Rows, rounds: seq<set<Id>>) {
    ByHeight(rows, rounds) && AtLeast(rows, |rounds|) == {}
  }

  lemma AllPeeled(rows: Rows, rounds: seq<set<Id>>)
    requires ByHeight(rows, rounds) && Peeled(rows, |rounds|, map[])
    ensures RoundsByHeight(rows, rounds)
  {
  }

  lemma PeelStart(f: Fixture, claim: Claim, before: Database, explicit: set<Id>, rows: Rows, d: Database,
                  start: seq<Database>)
    requires Integrity(before) && Accepted(f, claim, before, explicit) && rows == ScopeCategories(f, before)
    requires AtStage(claim, before, explicit, rows.Keys, d)
    ensures LineageAccepts(rows) && Peeled(rows, 0, Parents(rows)) && ByHeight(rows, [])
    ensures SafeFor(claim, before, d) && SafeSince(claim, before, start, start)
  {
    DescentStart(rows);
    StageIsSafe(f, claim, before, explicit, rows, 0, rows.Keys);
  }

  lemma StageIsSafe(f: Fixture, claim: Claim, before: Database, explicit: set<Id>, rows: Rows, k: nat, left: set<Id>)
    requires Integrity(before) && Accepted(f, claim, before, explicit) && rows == ScopeCategories(f, before)
    requires left == AtLeast(rows, k)
    ensures SafeFor(claim, before, Stage(before, claim.categories, claim.products, explicit, left))
  {
    AcceptsIffForest(rows);
    UpperPartClosed(rows, k);
    StageSafe(before, claim.categories, claim.products, explicit, left);
  }

  lemma StageNext(f: Fixture, claim: Claim, before: Database, explicit: set<Id>, rows: Rows, k: nat, now: set<Id>,
                  leaves: set<Id>, left: set<Id>, d: Database)
    requires Integrity(before) && Accepted(f, claim, before, explicit) && rows == ScopeCategories(f, before)
    requires now == AtLeast(rows, k) && leaves <= now && left == AtLeast(rows, k + 1) == now - leaves
    requires AtStage(claim, before, explicit, now, d)
    ensures AtStage(claim, before, explicit, left, UnlinkCategories(d, leaves))
    ensures SafeFor(claim, before, UnlinkCategories(d, leaves))
  {
    StageIsSafe(f, claim, before, explicit, rows, k + 1, left);
    NextStage(before, claim.categories, claim.products, explicit, now, leaves);
  }
}
