/** The disposable qualification target: seeding its categories, taking over what a load
    made, and removing exactly the records the run owns. */
module FixtureTarget {
  import opened Orders
  import opened Wrappers
  import opened Counting
  import opened Lineage
  import opened Seeding
  import opened Store
  import opened TargetChecks
  import opened CleanupSafety
  import opened TargetMeaning

  /** The remote database, the states it went through, and the line to it. */
  class Server {
    var database: Database
    /** The next category id the database will give out, at the earliest. */
    var nextId: Id
    const link: Link
    var requests: nat
    /** Every database state an unlink call left behind. */
    ghost var history: seq<Database>
    /** The ids it answered to each creation. */
    var acknowledged: seq<seq<Id>>

    constructor (database: Database, nextId: Id, link: Link)
      ensures this.database == database && this.nextId == nextId && this.link == link
      ensures requests == 0 && history == [] && acknowledged == []
    {
      this.database, this.nextId, this.link, requests, history, acknowledged := database, nextId, link, 0, [], [];
    }

  }

  /** The end of a seeding right after answer number `at`, before its ids are noted, or while
      they are written to the file. */
  datatype SeedCut = SeedCut(at: nat, noted: bool)

  class Target {
    const fixture: Fixture
    const remote: bool
    const server: Server
    var ownedCategories: set<Id>
    var ownedProducts: set<Id>
    var externalIds: set<ExternalId>
    var seeded: bool

    constructor (fixture: Fixture, remote: bool, server: Server)
      ensures this.fixture == fixture && this.remote == remote && this.server == server
      ensures Owned() == Claim({}, {}, {}) && !seeded
    {
      this.fixture, this.remote, this.server := fixture, remote, server;
      ownedCategories, ownedProducts, externalIds, seeded := {}, {}, {}, false;
    }

    /** All requests since number `first` have been answered. */
    ghost predicate AnsweredSince(first: nat)
      reads server`requests
    {
      first <= server.requests && AllAnswered(server.link, first, server.requests)
    }

    /** `records`: one bounded read, after others since number `first`. */
    method ReadRecords(matching: set<Id>, ghost first: nat) returns (r: Result<seq<Id>, Failure>)
      requires AnsweredSince(first)
      modifies server`requests
      ensures server.requests == old(server.requests) + 1
      ensures r.Ok? <==> AnsweredSince(first) && |matching| < READ_LIMIT
      ensures AnsweredSince(first) <==> server.link(old(server.requests)) == Answered
      ensures r.Ok? ==> Elements(r.value) == matching && NoDuplicates(r.value) && |r.value| == |matching|
      ensures r.Err? ==> r.error == if AnsweredSince(first) then FixtureReadTruncated else Unavailable
    {
      var answered := server.link(server.requests) == Answered;
      server.requests := server.requests + 1;
      r := Read(matching, answered);
    }

    /** `scope_records`, reduced to what `validate` and the last check of `cleanup` ask. */
    method ScopeIsEmpty() returns (r: Result<bool, Failure>)
      modifies server`requests
      ensures old(server.requests) <= server.requests
      ensures r.Ok? <==>
        && AnsweredSince(old(server.requests))
        && |ScopeCategories(fixture, server.database).Keys| < READ_LIMIT
        && |ScopeProducts(fixture, server.database).Keys| < READ_LIMIT
      ensures r.Ok? ==> r.value == ScopeEmpty(fixture, server.database)
      ensures r.Err? ==> r.error == if AnsweredSince(old(server.requests)) then FixtureReadTruncated else Unavailable
    {
      hide AllAnswered, Elements, NoDuplicates, ScopeCategories, ScopeProducts;
      ghost var first := server.requests;
      NothingAsked(server.link, first);
      var categories := ReadRecords(ScopeCategories(fixture, server.database).Keys, first);
      if categories.Err? { return Err(categories.error); }
      var products := ReadRecords(ScopeProducts(fixture, server.database).Keys, first);
      if products.Err? { return Err(products.error); }
      r := Ok(categories.value == [] && products.value == []);
      EmptyListing(categories.value, ScopeCategories(fixture, server.database));
      EmptyListing(products.value, ScopeProducts(fixture, server.database));
    }

    /** `validate`: the fixture scope must be empty. `others` is the verdict of its checks that
        do not look at the fixture (runtime, modules, permissions). */
    method Validate(others: bool) returns (r: Result<(), Failure>)
      modifies server`requests
      ensures old(server.requests) <= server.requests
      ensures r.Ok? <==> others && ScopeEmpty(fixture, server.database) && AnsweredSince(old(server.requests))
      ensures r.Ok? <==>
        && others && AnsweredSince(old(server.requests))
        && (forall c :: c in server.database.categories ==>
              server.database.categories[c].name !in fixture.categoryNames)
        && (forall p :: p in server.database.products ==>
              server.database.products[p].reference !in fixture.references)
    {
      ScopeEmptyMeans(fixture, server.database);
      if !others { return Err(Unavailable); }
      var empty := ScopeIsEmpty();
      if empty.Err? { return Err(empty.error); }
      return if empty.value then Ok(()) else Err(FixtureScopeNotEmpty);
    }

    /** `verify_business`: accepts exactly the verified databases, if it can read them. */
    method VerifyBusiness() returns (r: Result<(), Failure>)
      modifies server`requests
      ensures old(server.requests) <= server.requests
      ensures r.Ok? <==>
        && Verified(fixture, server.database) && BusinessReadable(fixture, server.database)
        && AnsweredSince(old(server.requests))
      ensures r.Err? ==> (r.error == Unavailable <==> !AnsweredSince(old(server.requests)))
      ensures r.Err? && r.error == FixtureReadTruncated ==> !BusinessReadable(fixture, server.database)
      ensures r.Err? && r.error !in {Unavailable, FixtureReadTruncated} ==>
        !Verified(fixture, server.database) && FailureFits(fixture, server.database, r.error)
    {
      hide OneToOne, Compares, Verified, FailureFits, NoDuplicates, Elements, AllAnswered;
      ghost var first := server.requests;
      NothingAsked(server.link, first);
      var d := server.database;
      var products := ScopeProducts(fixture, d).Keys;
      VerdictOf(fixture, d);
      var categoryIds := ReadRecords(ScopeCategories(fixture, d).Keys, first);
      if categoryIds.Err? { return Err(categoryIds.error); }
      var productIds := ReadRecords(products, first);
      if productIds.Err? { return Err(productIds.error); }
      var compared := Compare(fixture, d, categoryIds.value, productIds.value);
      if compared.Err? { return compared; }
      var variantIds := ReadRecords(VariantsOf(d, products), first);
      if variantIds.Err? { return Err(variantIds.error); }
      VariantChecks(fixture, d, products);
      if !(|variantIds.value| == |fixture.expectedProducts| && VariantMap(d, products).Values == products) {
        return Err(ProductVariantsDiffer);
      }
      return Ok(());
    }

    // ---------- `seed` ----------

    ghost predicate IdsBelowNext()
      reads server
    {
      forall id :: id in server.database.categories ==> id < server.nextId
    }

    /** `create_rows`: the database picks new ids, and the reply may be lost. */
    method CreateRows(level: seq<Path>, ids: map<Path, Id>) returns (r: Result<seq<Id>, Failure>, ghost picked: seq<Id>)
      requires IdsBelowNext() && forall p :: p in level ==> |p| > 0
      modifies server
      ensures IdsBelowNext()
      ensures |picked| == |level| && NoDuplicates(picked) && forall id :: id in picked ==>
        id !in old(server.database).categories
      ensures r.Ok? ==> r.value == picked && server.database == Extended(old(server.database), level, ids, picked)
      ensures server.acknowledged ==
        if r.Ok? then old(server.acknowledged) + [r.value] else old(server.acknowledged)
      ensures r.Ok? <==> server.link(old(server.requests)) == Answered
      ensures r.Ok? <==> AnsweredSince(old(server.requests))
      ensures r.Err? ==> r.error == Unavailable
      ensures server.requests == old(server.requests) + 1
      ensures server.database ==
        if server.link(old(server.requests)) == Refused then old(server.database)
        else Extended(old(server.database), level, ids, picked)
    {
      var gap: nat :| gap >= 0;
      var first: nat := server.nextId + gap;
      var newIds: seq<Id> := seq(|level|, (i: nat) requires i < |level| => first + i);
      assert NoDuplicates(newIds) && forall id :: id in newIds ==> server.nextId <= id < first + |level|;
      picked := newIds;
      hide AllAnswered;
      var answer := server.link(server.requests);
      OneAsked(server.link, server.requests);
      server.requests := server.requests + 1;
      if answer != Refused {
        AssignMeans(server.database.categories, newIds, Records(level, ids));
        server.database := Extended(server.database, level, ids, newIds);
        server.nextId := first + |level|;
      }
      if answer != Answered { return Err(Unavailable), picked; }
      server.acknowledged := server.acknowledged + [newIds];
      r := Ok(newIds);
    }

    /** The batches acknowledged since `start`. */
    ghost function Answers(start: nat): seq<seq<Id>>
      requires start <= |server.acknowledged|
      reads server
    {
      server.acknowledged[start..]
    }

    /** One round of the level loop, cut short after an answer if `cut` says so. */
    method SeedLevel(depth: nat, paths: map<Path, Id>, ghost created: map<Id, Path>, ghost before: Database,
                     cut: bool, unsaved: bool)
      returns (r: Result<map<Path, Id>, Failure>, ghost made: map<Id, Path>)
      requires SeededUpTo(fixture.existing, depth, before, paths, created, server.database) && IdsBelowNext()
      modifies this`ownedCategories, server
      ensures IdsBelowNext() && Integrity(server.database)
      ensures r.Ok? ==> SeededUpTo(fixture.existing, depth + 1, before, r.value, made, server.database)
      ensures |old(server.acknowledged)| <= |server.acknowledged| <= |old(server.acknowledged)| + 1
      ensures server.acknowledged[..|old(server.acknowledged)|] == old(server.acknowledged)
      ensures var answers := Answers(|old(server.acknowledged)|);
        && made.Keys == created.Keys + (if cut then {} else AllIds(answers))
        && ownedCategories == old(ownedCategories) + (if cut then {} else AllIds(answers))
        && ((cut || unsaved) && answers != [] <==> r.Err? && r.error == Interrupted)
        && AllIds(answers) <= server.database.categories.Keys - old(server.database).categories.Keys
        && (forall b :: b in answers ==> b != [])
      ensures old(server.requests) <= server.requests
      ensures r.Ok? ==> AnsweredSince(old(server.requests))
      ensures r.Err? ==> r.error == Interrupted || !AnsweredSince(old(server.requests))
      ensures old(server.database).categories.Keys <= server.database.categories.Keys
      ensures made.Keys <= server.database.categories.Keys
      ensures OnlySeeds(fixture.existing, before, server.database)
    {
      hide SeededUpTo, Integrity, OnlySeeds, Assign, Extended, Records, Elements, NoDuplicates, OfDepth, AllAnswered,
        AllIds;
      NothingAsked(server.link, server.requests);
      NoAnswer();
      var level := OfDepth(fixture.existing, depth + 1);
      ghost var here, asked := server.database, |server.acknowledged|;
      NextBatch(fixture.existing, depth, before, paths, created, here, level);
      if level == [] {
        assert Answers(asked) == [];
        return Ok(paths), created;
      }
      ghost var picked;
      var identifiers;
      identifiers, picked := CreateRows(level, paths);
      OneBatch(fixture.existing, depth, before, paths, created, here, level, picked);
      ExtendedKeys(here, level, paths, picked);
      SeededMeans(fixture.existing, depth + 1, before, Assign(paths, level, picked), Assign(created, picked, level),
                  Extended(here, level, paths, picked));
      if identifiers.Err? {
        assert Answers(asked) == [];
        return Err(identifiers.error), created;
      }
      assert Answers(asked) == [picked];
      OneAnswer(picked);
      if cut { return Err(Interrupted), created; }
      ownedCategories := ownedCategories + Elements(identifiers.value);
      if unsaved { return Err(Interrupted), Assign(created, identifiers.value, level); }
      return Ok(Assign(paths, level, identifiers.value)), Assign(created, identifiers.value, level);
    }

    /** `seed`: one batch a level, each record under the record of its parent path. Whatever
        fails, the records the database acknowledged are owned, all of them unless an
        interruption comes right after an answer, before the ids are noted: then the last batch
        is not. Nothing fails but requests, and what `cut` says. */
    method Seed(cut: Option<SeedCut>)
      returns (r: Result<(), Failure>, ghost ids: map<Path, Id>, ghost created: map<Id, Path>)
      requires Integrity(server.database) && IdsBelowNext()
      modifies this`seeded, this`ownedCategories, server
      ensures old(server.requests) <= server.requests
      ensures seeded && Integrity(server.database) && IdsBelowNext()
      ensures r.Ok? ==> SeededUpTo(fixture.existing, MAX_DEPTH, old(server.database), ids, created, server.database)
      ensures |old(server.acknowledged)| <= |server.acknowledged|
      ensures server.acknowledged[..|old(server.acknowledged)|] == old(server.acknowledged)
      ensures var answers := Answers(|old(server.acknowledged)|);
        var cutShort := cut.Some? && cut.value.at < |answers|;
        && (cutShort ==> |answers| == cut.value.at + 1)
        && (cutShort <==> r.Err? && r.error == Interrupted)
        && (r.Ok? <==> AnsweredSince(old(server.requests)) && !cutShort)
        && created.Keys == AllIds(if cutShort && !cut.value.noted then answers[..cut.value.at] else answers)
        && AllIds(answers) <= server.database.categories.Keys - old(server.database).categories.Keys
        && forall b :: b in answers ==> b != []
      ensures ownedCategories == old(ownedCategories) + created.Keys
      ensures created.Keys <= server.database.categories.Keys
      ensures OnlySeeds(fixture.existing, old(server.database), server.database)
    {
      hide SeededUpTo, Integrity, OnlySeeds, AllIds, AllAnswered;
      NothingAsked(server.link, server.requests);
      seeded := true;
      ghost var before, first := server.database, server.requests;
      var asked := |server.acknowledged|;
      var paths: map<Path, Id> := map[];
      ids, created := map[], map[];
      SeedStart(fixture.existing, before);
      NoAnswer();
      assert Answers(asked) == [];
      for depth := 1 to 5
        invariant SeededUpTo(fixture.existing, depth - 1, before, paths, created, server.database)
        invariant seeded && IdsBelowNext() && ownedCategories == old(ownedCategories) + created.Keys
        invariant asked <= |server.acknowledged| && server.acknowledged[..asked] == old(server.acknowledged)
        invariant created.Keys == AllIds(Answers(asked)) && AnsweredSince(first)
        invariant before.categories.Keys <= server.database.categories.Keys
        invariant AllIds(Answers(asked)) <= server.database.categories.Keys - before.categories.Keys
        invariant forall b :: b in Answers(asked) ==> b != []
        invariant cut.Some? ==> cut.value.at >= |Answers(asked)|
      {
        SeededMeans(fixture.existing, depth - 1, before, paths, created, server.database);
        ghost var here, request := server.acknowledged, server.requests;
        var batch;
        var now := cut.Some? && cut.value.at == |server.acknowledged| - asked;
        batch, created := SeedLevel(depth - 1, paths, created, before, now && !cut.value.noted, now && cut.value.noted);
        AnswersGrow(here, server.acknowledged, asked);
        AnsweredOn(server.link, first, request, server.requests);
        if batch.Err? { return Err(batch.error), paths, created; }
        paths := batch.value;
      }
      SeededMeans(fixture.existing, MAX_DEPTH, before, paths, created, server.database);
      return Ok(()), paths, created;
    }

    // ---------- `adopt_verified` ----------

    /** Takes over the committed rows of a complete run. A bad receipt stops half way. */
    method AdoptVerified(completed: bool, committed: nat, rows: seq<ReceiptRow>) returns (r: Result<(), Failure>)
      modifies this`ownedCategories, this`ownedProducts, this`externalIds
      ensures r.Ok? <==> completed && committed == fixture.expectedCommits && ReceiptsValid(rows)
      ensures r.Err? && completed && committed == fixture.expectedCommits ==> r.error == ReceiptInvalid
      ensures !(completed && committed == fixture.expectedCommits) ==> r == Err(ExecutionIncomplete)
      ensures r.Ok? ==> Owned() == Claim(old(ownedCategories) + Receipted(rows, CategoryModel),
                                         old(ownedProducts) + Receipted(rows, ProductModel), ProposedIds(rows))
      ensures r.Ok? ==> forall e :: e in externalIds <==> exists row :: row in rows && row.proposed == Some(e)
      ensures r.Err? ==> externalIds == old(externalIds)
      ensures old(ownedCategories) <= ownedCategories <= old(ownedCategories) + Receipted(rows, CategoryModel)
      ensures old(ownedProducts) <= ownedProducts <= old(ownedProducts) + Receipted(rows, ProductModel)
    {
      if !(completed && committed == fixture.expectedCommits) { return Err(ExecutionIncomplete); }
      for i := 0 to |rows|
        invariant ReceiptsValid(rows[..i])
        invariant ownedCategories == old(ownedCategories) + Receipted(rows[..i], CategoryModel)
        invariant ownedProducts == old(ownedProducts) + Receipted(rows[..i], ProductModel)
        invariant externalIds == old(externalIds)
      {
        assert rows[..i + 1] == rows[..i] + [rows[i]];
        ReceiptedGrows(rows[..i], rows[i]);
        ReceiptedPart(rows, i);
        assert rows[i] in rows;
        if rows[i].committed {
          if rows[i].model.None? || rows[i].id == 0 { return Err(ReceiptInvalid); }
          match rows[i].model.value {
            case CategoryModel => ownedCategories := ownedCategories + {rows[i].id};
            case ProductModel => ownedProducts := ownedProducts + {rows[i].id};
          }
        }
      }
      assert rows[..|rows|] == rows;
      externalIds := ProposedIds(rows);
      return Ok(());
    }

    // ---------- `cleanup` ----------

    ghost function Owned(): Claim
      reads this`ownedCategories, this`ownedProducts, this`externalIds
    {
      Claim(ownedCategories, ownedProducts, externalIds)
    }

    /** Everything `cleanup` checks before it deletes; on success, the bindings to delete. */
    method CleanupChecks() returns (r: Result<set<Id>, Failure>)
      modifies server`requests
      ensures old(server.requests) <= server.requests
      ensures r.Ok? <==>
        && Acceptable(fixture, remote, Owned(), server.database)
        && ChecksReadable(fixture, remote, Owned(), server.database) && AnsweredSince(old(server.requests))
      ensures r.Ok? ==> r.value == Explicit(remote, Owned(), server.database)
      ensures r.Err? ==> r.error in CHECK_FAILURES
      ensures r.Err? ==> CheckFits(fixture, remote, Owned(), server.database, r.error)
    {
      hide FailureFits, Verified, ForeignNames, ScopeCategories, ScopeProducts, Attached, NoForeignDependents,
        BusinessReadable, DependentsReadable, BindingsReadable, Explicit;
      var business := VerifyBusiness();
      if business.Err? {
        BusinessFailureFits(fixture, remote, Owned(), server.database, business.error);
        return Err(business.error);
      }
      if !OwnsScope(fixture, Claim(ownedCategories, ownedProducts, externalIds), server.database) {
        return Err(OwnershipMismatch);
      }
      var dependents := DependentChecks();
      if dependents.Err? { return Err(dependents.error); }
      r := BindingChecks();
    }

    method DependentChecks() returns (r: Result<(), Failure>)
      modifies server`requests
      ensures old(server.requests) <= server.requests
      ensures r.Ok? <==>
        && NoForeignDependents(server.database, ownedCategories, ownedProducts)
        && DependentsReadable(Owned(), server.database) && AnsweredSince(old(server.requests))
      ensures r.Err? ==> r.error in {Unavailable, FixtureReadTruncated, ForeignDependent}
      ensures r.Err? && r.error == ForeignDependent ==>
        !NoForeignDependents(server.database, ownedCategories, ownedProducts)
    {
      hide AllAnswered;
      ghost var first := server.requests;
      NothingAsked(server.link, first);
      var d := server.database;
      var linked := ReadRecords(LinkedProducts(d, ownedCategories), first);
      if linked.Err? { return Err(linked.error); }
      var children := ReadRecords(ChildCategories(d, ownedCategories), first);
      if children.Err? { return Err(children.error); }
      if !(LinkedProducts(d, ownedCategories) <= ownedProducts
           && ChildCategories(d, ownedCategories) <= ownedCategories) {
        return Err(ForeignDependent);
      }
      return Ok(());
    }

    method BindingChecks() returns (r: Result<set<Id>, Failure>)
      modifies server`requests
      ensures old(server.requests) <= server.requests
      ensures r.Ok? <==>
        && !ForeignNames(remote, Owned(), server.database)
        && BindingsReadable(remote, Owned(), server.database) && AnsweredSince(old(server.requests))
      ensures r.Ok? ==> r.value == Explicit(remote, Owned(), server.database)
      ensures r.Err? ==> r.error in {Unavailable, FixtureReadTruncated, ExternalIdMismatch}
      ensures r.Err? && r.error == ExternalIdMismatch ==> ForeignNames(remote, Owned(), server.database)
    {
      hide AllAnswered;
      ghost var first := server.requests;
      NothingAsked(server.link, first);
      var d := server.database;
      var onCategories := Attached(d, CategoryModel, ownedCategories);
      var read := ReadRecords(onCategories, first);
      if read.Err? { return Err(read.error); }
      if !NamesKnown(d, onCategories, externalIds) { return Err(ExternalIdMismatch); }
      var onProducts := Attached(d, ProductModel, ownedProducts);
      read := ReadRecords(onProducts, first);
      if read.Err? { return Err(read.error); }
      if !NamesKnown(d, onProducts, externalIds) { return Err(ExternalIdMismatch); }
      if externalIds == {} || !remote {
        assert externalIds == {} ==> NamedBindings(d, externalIds) == {};
        return Ok({});
      }
      var named := NamedBindings(d, externalIds);
      read := ReadRecords(named, first);
      if read.Err? { return Err(read.error); }
      if !(NamesKnown(d, named, externalIds) && named <= onCategories + onProducts) {
        return Err(ExternalIdMismatch);
      }
      return Ok(named);
    }

    /** `_unlink` of `ids`, which would lead to `after`. Without ids nothing is sent; a request
        may be refused or its answer lost, and only an answered one is trusted. */
    method Unlink(ids: set<Id>, after: Database, ghost before: Database, ghost start: seq<Database>)
      returns (acknowledged: bool)
      requires ids == {} ==> after == server.database
      requires SafeSince(Owned(), before, start, server.history)
      requires SafeFor(Owned(), before, server.database) && SafeFor(Owned(), before, after)
      modifies server`database, server`history, server`requests
      ensures acknowledged <==> ids == {} || server.link(old(server.requests)) == Answered
      ensures acknowledged <==> AnsweredSince(old(server.requests))
      ensures server.requests == old(server.requests) + if ids == {} then 0 else 1
      ensures ids == {} || server.link(old(server.requests)) == Refused ==>
        server.database == old(server.database) && server.history == old(server.history)
      ensures ids != {} && server.link(old(server.requests)) != Refused ==>
        server.database == after && server.history == old(server.history) + [after]
      ensures SafeSince(Owned(), before, start, server.history) && SafeFor(Owned(), before, server.database)
    {
      if ids == {} { return true; }
      var answer := server.link(server.requests);
      server.requests := server.requests + 1;
      if answer != Refused { server.database, server.history := after, server.history + [after]; }
      return answer == Answered;
    }

    /** One round of the loop below. */
    method PeelOnce(remaining: ParentMap, ghost before: Database, ghost explicit: set<Id>, ghost rows: Rows,
                    ghost k: nat,
                    ghost start: seq<Database>) returns (r: Result<ParentMap, Failure>, leaves: set<Id>)
      requires Integrity(before) && Accepted(fixture, Owned(), before, explicit)
      requires rows == ScopeCategories(fixture, before)
      requires LineageAccepts(rows) && Peeled(rows, k, remaining) && remaining != map[]
      requires AtStage(Owned(), before, explicit, remaining.Keys, server.database)
      requires SafeSince(Owned(), before, start, server.history) && SafeFor(Owned(), before, server.database)
      modifies server`database, server`history, server`requests
      ensures old(server.requests) <= server.requests
      ensures r.Ok? ==>
        Peeled(rows, k + 1, r.value) && AtStage(Owned(), before, explicit, r.value.Keys, server.database)
      ensures r.Ok? ==> leaves == AtHeight(rows, k) && leaves != {} && |r.value.Keys| < |remaining.Keys|
      ensures r.Ok? <==> AnsweredSince(old(server.requests))
      ensures r.Err? ==> r.error == CleanupUncertain
      ensures SafeSince(Owned(), before, start, server.history) && SafeFor(Owned(), before, server.database)
    {
      hide *;
      leaves := Leaves(remaining);
      LeafExists(rows, k, remaining);
      if leaves == {} { return Err(CategoryCycle), leaves; }
      PeelRound(rows, k, remaining);
      var left := remaining - leaves;
      var after := UnlinkCategories(server.database, leaves);
      StageNext(fixture, Owned(), before, explicit, rows, k, remaining.Keys, leaves, left.Keys, server.database);
      var ok := Unlink(leaves, after, before, start);
      if !ok { return Err(CleanupUncertain), leaves; }
      SubsetSize(left.Keys, remaining.Keys);
      return Ok(left), leaves;
    }

    /** The `while remaining` loop: each round unlinks the current leaves. */
    method Peel(ghost before: Database, ghost explicit: set<Id>, rows: Rows)
      returns (r: Result<(), Failure>, ghost rounds: seq<set<Id>>)
      requires Integrity(before) && Accepted(fixture, Owned(), before, explicit)
      requires rows == ScopeCategories(fixture, before)
      requires AtStage(Owned(), before, explicit, rows.Keys, server.database)
      modifies server`database, server`history, server`requests
      ensures old(server.requests) <= server.requests
      ensures r.Ok? ==> AtStage(Owned(), before, explicit, {}, server.database) && RoundsByHeight(rows, rounds)
      ensures r.Ok? <==> AnsweredSince(old(server.requests))
      ensures r.Err? ==> r.error == CleanupUncertain
      ensures SafeSince(Owned(), before, old(server.history), server.history)
      ensures SafeFor(Owned(), before, server.database)
    {
      hide Peeled, SafeFor, Accepted, AtLeast, AtHeight, LineageAccepts, Integrity, Leaves, SafeSince,
        UnlinkCategories, ByHeight, AtStage, ScopeCategories, Parents, RoundsByHeight;
      var remaining := Parents(rows);
      rounds := [];
      ghost var claim, start := Owned(), server.history;
      PeelStart(fixture, claim, before, explicit, rows, server.database, start);
      while remaining != map[]
        invariant Peeled(rows, |rounds|, remaining)
        invariant AtStage(claim, before, explicit, remaining.Keys, server.database)
        invariant ByHeight(rows, rounds) && old(server.requests) <= server.requests
        invariant AnsweredSince(old(server.requests))
        invariant SafeSince(claim, before, start, server.history) && SafeFor(claim, before, server.database)
        decreases |remaining.Keys|
      {
        var round, leaves := PeelOnce(remaining, before, explicit, rows, |rounds|, start);
        if round.Err? { return Err(round.error), rounds; }
        NextRound(rows, rounds, leaves);
        remaining, rounds := round.value, rounds + [leaves];
      }
      AllPeeled(rows, rounds);
      return Ok(()), rounds;
    }

    /** `cleanup`. Either nothing is sent, or every state on the way keeps referential
        integrity and lacks only owned records; on success exactly the owned records are
        gone, categories leaving in the order of their heights. */
    method Cleanup() returns (r: Result<(), Failure>, ghost rounds: seq<set<Id>>)
      requires Integrity(server.database)
      modifies server`database, server`history, server`requests
      ensures old(server.requests) <= server.requests
      ensures r.Ok? <==>
        && Acceptable(fixture, remote, Owned(), old(server.database))
        && ChecksReadable(fixture, remote, Owned(), old(server.database)) && AnsweredSince(old(server.requests))
      ensures r.Ok? ==> Verified(fixture, old(server.database))
      ensures r.Ok? ==> OwnsScope(fixture, Owned(), old(server.database))
      ensures r.Ok? ==> server.database == WithoutOwned(old(server.database), ownedCategories, ownedProducts)
      ensures r.Ok? ==>
        ScopeEmpty(fixture, server.database)
      ensures r.Ok? ==> RoundsByHeight(ScopeCategories(fixture, old(server.database)), rounds)
      ensures r.Err? ==> r.error in CHECK_FAILURES + {CleanupUncertain}
      ensures r.Err? && r.error in CHECK_ONLY ==>
        server.database == old(server.database) && server.history == old(server.history)
      ensures r.Err? ==> CheckFits(fixture, remote, Owned(), old(server.database), r.error)
      ensures SafeSince(Owned(), old(server.database), old(server.history), server.history)
      ensures Integrity(server.database)
      ensures OnlyOwnedRemoved(old(server.database), ownedCategories, ownedProducts, server.database)
      ensures server.database == old(server.database) || OwnsScope(fixture, Owned(), old(server.database))
    {
      hide Accepted, SafeFor, SafeSince, AtStage, Verified, ScopeCategories, ScopeProducts, RoundsByHeight, Safe,
        OnlyOwnedRemoved, Integrity, WithoutOwned, UnlinkBindings, UnlinkProducts, VariantsOf;
      ghost var before, start := server.database, server.history;
      rounds := [];
      NothingSent(Owned(), before, start);
      var checks := CleanupChecks();
      if checks.Err? {
        CheckFailureKinds(checks.error);
        return Err(checks.error), rounds;
      }
      var explicit := checks.value;
      AcceptableIsAccepted(fixture, remote, Owned(), before);
      r, rounds := Remove(before, explicit);
      AcceptedMeans(fixture, Owned(), before, explicit);
      if r.Err? { LateFailureKinds(r.error); return; }
      NothingRemains(fixture, Owned(), before, explicit, server.database);
      var late := FinalChecks(explicit);
      if late.Err? { LateFailureKinds(late.error); }
      return late, rounds;
    }

    /** The unlink calls of an accepted cleanup, in order. */
    method Remove(ghost before: Database, explicit: set<Id>)
      returns (r: Result<(), Failure>, ghost rounds: seq<set<Id>>)
      requires Integrity(before) && Accepted(fixture, Owned(), before, explicit) && server.database == before
      modifies server`database, server`history, server`requests
      ensures old(server.requests) <= server.requests
      ensures r.Ok? ==> AtStage(Owned(), before, explicit, {}, server.database)
      ensures r.Ok? ==> RoundsByHeight(ScopeCategories(fixture, before), rounds)
      ensures r.Ok? <==> AnsweredSince(old(server.requests))
      ensures r.Err? ==> r.error == CleanupUncertain
      ensures SafeSince(Owned(), before, old(server.history), server.history)
      ensures SafeFor(Owned(), before, server.database)
    {
      hide Accepted, SafeFor, SafeSince, AtStage, Verified, ScopeCategories, ScopeProducts, RoundsByHeight, Safe,
        OnlyOwnedRemoved, Integrity, WithoutOwned, UnlinkBindings, UnlinkProducts, VariantsOf;
      ghost var start := server.history;
      rounds := [];
      NothingSent(Owned(), before, start);
      BindingsAndProductsSafe(fixture, Owned(), before, explicit);
      var rows := ScopeCategories(fixture, server.database);
      AcceptedMeans(fixture, Owned(), before, explicit);
      var ok := Unlink(explicit, UnlinkBindings(server.database, explicit), before, start);
      if !ok { return Err(CleanupUncertain), rounds; }
      ok := Unlink(ownedProducts, UnlinkProducts(server.database, ownedProducts), before, start);
      if !ok { return Err(CleanupUncertain), rounds; }
      ghost var atPeel := server.history;
      r, rounds := Peel(before, explicit, rows);
      SafeThrough(Owned(), before, start, atPeel, server.history);
    }

    /** The reads after the last unlink. */
    method FinalChecks(explicit: set<Id>) returns (r: Result<(), Failure>)
      requires ScopeEmpty(fixture, server.database)
      requires VariantsOf(server.database, ownedProducts) == {} && explicit !! server.database.bindings.Keys
      modifies server`requests
      ensures old(server.requests) <= server.requests
      ensures r.Ok? <==> AnsweredSince(old(server.requests))
      ensures r.Err? ==> r.error == Unavailable
    {
      hide ScopeCategories, ScopeProducts, NoDuplicates, VariantsOf;
      ghost var first := server.requests;
      var empty := ScopeIsEmpty();
      if empty.Err? { return Err(empty.error); }
      if !empty.value { return Err(AbsenceUnproven); }
      var variants := ReadRecords(VariantsOf(server.database, ownedProducts), first);
      if variants.Err? { return Err(variants.error); }
      if |variants.value| != 0 { return Err(VariantsRemain); }
      if explicit != {} {
        var rest := ReadRecords(explicit * server.database.bindings.Keys, first);
        if rest.Err? { return Err(rest.error); }
        if |rest.value| != 0 { return Err(ExternalIdsRemain); }
      }
      return Ok(());
    }
  }

  // ---------- Why seeding keeps its promises ----------

  lemma OneAsked(link: Link, first: nat)
    ensures AllAnswered(link, first, first + 1) <==> link(first) == Answered
  {
  }

  lemma AnsweredOn(link: Link, first: nat, between: nat, end: nat)
    requires first <= between <= end
    ensures AllAnswered(link, first, end) <==> AllAnswered(link, first, between) && AllAnswered(link, between, end)
  {
  }

  lemma NothingAsked(link: Link, first: nat)
    ensures AllAnswered(link, first, first)
  {
  }

  ghost function AllIds(batches: seq<seq<Id>>): set<Id> {
    set b, id | b in batches && id in b :: id
  }

  lemma NoAnswer()
    ensures AllIds([]) == {}
  {
  }

  lemma OneAnswer(ids: seq<Id>)
    ensures AllIds([ids]) == Elements(ids)
  {
  }

  lemma AnswersGrow(before: seq<seq<Id>>, after: seq<seq<Id>>, asked: nat)
    requires asked <= |before| <= |after| && after[..|before|] == before
    ensures after[asked..] == before[asked..] + after[|before|..]
    ensures AllIds(after[asked..]) == AllIds(before[asked..]) + AllIds(after[|before|..])
    ensures after[..asked] == before[..asked] && after[asked..][..|before| - asked] == before[asked..]
  {
    assert after == before + after[|before|..];
    assert after[asked..] == before[asked..] + after[|before|..];
    assert forall b :: b in after[asked..] <==> b in before[asked..] || b in after[|before|..];
  }

  function Extended(d: Database, level: seq<Path>, ids: map<Path, Id>, newIds: seq<Id>): Database
    requires |newIds| == |level| && forall p :: p in level ==> |p| > 0
  {
    d.(categories := Assign(d.categories, newIds, Records(level, ids)))
  }

  /** After the levels up to `depth`: the records made so far, the rest as it was. */
  ghost predicate SeededUpTo(existing: seq<Path>, depth: nat, before: Database, ids: map<Path, Id>, created: map<Id,
                             Path>,
                             d: Database)
  {
    && Levels(Elements(existing), depth, before.categories, ids, created, d.categories)
    && d == before.(categories := d.categories)
    && Integrity(before) && Integrity(d)
    && SubMap(before.categories, d.categories)
    && (NoDuplicates(existing) ==> Injective(created))
  }

  /** All that a seeding, finished or not, can have done: added categories of its own names. */
  ghost predicate OnlySeeds(existing: seq<Path>, before: Database, after: Database) {
    && after == before.(categories := after.categories)
    && SubMap(before.categories, after.categories)
    && forall id :: id in after.categories && id !in before.categories ==>
         after.categories[id].name in SeedNames(Elements(existing))
  }

  lemma SeedStart(existing: seq<Path>, before: Database)
    requires Integrity(before)
    ensures SeededUpTo(existing, 0, before, map[], map[], before)
  {
  }

  lemma SeededMeans(existing: seq<Path>, depth: nat, before: Database, ids: map<Path, Id>, created: map<Id, Path>,
                    d: Database)
    requires SeededUpTo(existing, depth, before, ids, created, d)
    ensures created.Keys <= d.categories.Keys && Integrity(d) && OnlySeeds(existing, before, d)
  {
    NewRowsNamed(Elements(existing), depth, before.categories, ids, created, d.categories);
  }

  lemma NextBatch(existing: seq<Path>, depth: nat, before: Database, paths: map<Path, Id>, created: map<Id, Path>,
                  here: Database, level: seq<Path>)
    requires SeededUpTo(existing, depth, before, paths, created, here) && level == OfDepth(existing, depth + 1)
    ensures level == [] ==> SeededUpTo(existing, depth + 1, before, paths, created, here)
    ensures forall p :: p in level ==> |p| > 0
    ensures created.Keys <= here.categories.Keys && Integrity(here) && OnlySeeds(existing, before, here)
  {
    SeededMeans(existing, depth, before, paths, created, here);
    OfDepthMeans(existing, depth + 1);
    assert level == [] ==> forall p :: p in Elements(existing) ==> p !in level;
    if level == [] {
      SkipLevel(Elements(existing), depth, before.categories, paths, created, here.categories);
    }
  }

  /** What one more batch does. */
  lemma OneBatch(existing: seq<Path>, depth: nat, before: Database, paths: map<Path, Id>, created: map<Id, Path>,
                 here: Database, level: seq<Path>, newIds: seq<Id>)
    requires SeededUpTo(existing, depth, before, paths, created, here)
    requires level == OfDepth(existing, depth + 1) && forall p :: p in level ==> |p| > 0
    requires |newIds| == |level| && NoDuplicates(newIds) && (forall id :: id in newIds ==> id !in here.categories)
    ensures SeededUpTo(existing, depth + 1, before, Assign(paths, level, newIds), Assign(created, newIds, level),
                       Extended(here, level, paths, newIds))
    ensures Assign(created, newIds, level).Keys == created.Keys + Elements(newIds)
    ensures Elements(newIds) !! created.Keys
  {
    hide Levels, Integrity, Injective, SubMap, Assign, OfDepth, NoDuplicates;
    OfDepthMeans(existing, depth + 1);
    var after := Extended(here, level, paths, newIds);
    NextLevel(Elements(existing), depth, before.categories, paths, created, here.categories, level, newIds);
    AssignMeans(created, newIds, level);
    BatchIntegral(Elements(existing), depth + 1, before, Assign(paths, level, newIds), Assign(created, newIds, level),
                  after);
    if NoDuplicates(existing) {
      OfDepthDistinct(existing, depth + 1);
      EarlierLevels(Elements(existing), depth, before.categories, paths, created, here.categories, level);
      NextInjective(created, level, newIds);
    }
    CreatedAreOld(Elements(existing), depth, before, paths, created, here, newIds);
  }

  lemma ExtendedKeys(d: Database, level: seq<Path>, ids: map<Path, Id>, newIds: seq<Id>)
    requires |newIds| == |level| && NoDuplicates(newIds) && forall p :: p in level ==> |p| > 0
    requires forall id :: id in newIds ==> id !in d.categories
    ensures Extended(d, level, ids, newIds).categories.Keys == d.categories.Keys + Elements(newIds)
    ensures Elements(newIds) !! d.categories.Keys
  {
    AssignMeans(d.categories, newIds, Records(level, ids));
  }

  lemma CreatedAreOld(paths: set<Path>, depth: nat, before: Database, ids: map<Path, Id>, created: map<Id, Path>,
                      here: Database,
                      newIds: seq<Id>)
    requires Levels(paths, depth, before.categories, ids, created, here.categories)
    requires forall id :: id in newIds ==> id !in here.categories
    ensures Elements(newIds) !! created.Keys
  {
  }

  lemma BatchIntegral(paths: set<Path>, depth: nat, before: Database, ids: map<Path, Id>, created: map<Id, Path>,
                      after: Database)
    requires Integrity(before) && after == before.(categories := after.categories)
    requires Levels(paths, depth, before.categories, ids, created, after.categories)
    ensures Integrity(after) && SubMap(before.categories, after.categories)
    ensures created.Keys <= after.categories.Keys && created.Keys !! before.categories.Keys
  {
    NewRowsIntegral(paths, depth, before.categories, ids, created, after.categories);
  }
}
