/** One qualification run. Every step may raise, before or after it takes effect, and an
    interruption may strike between any two statements. */
module Qualification {
  import opened Orders
  import opened Wrappers
  import opened Lineage
  import opened Seeding
  import opened Store
  import opened TargetChecks
  import opened CleanupSafety
  import opened FixtureTarget
  import opened Conservation
  import OwnedVault

  datatype Status = Failed | Passed

  datatype CleanupReport = NotNeeded | Retained | Incomplete | Complete

  /** The values of `report["phase"]`. */
  datatype Phase =
    | Authorization | Descriptor | Credentials | TargetValidation | SeedPhase | Authoring | AuthoringLoad
    | RepeatComparison | AuthoringCleanup | RecipeTargetValidation | RecipeSeed | RecipeApplication | RecipeLoad
    | RecipeCleanup | CredentialCleanup | Done

  /** `"cleanup" in report["phase"]`. */
  predicate NamesCleanup(p: Phase) {
    p in {AuthoringCleanup, RecipeCleanup, CredentialCleanup}
  }

  /** Where a second interruption cuts the handler of the first one short: not at all, before
      it has set the failure code, or after that and before it corrects the cleanup report. */
  datatype HandlerCut = Through | BeforeCode | BeforeCleanup

  /** The steps a run completes, as they happen. `Seeded` is complete once the report says
      that the seeded records are retained. */
  datatype Event =
    | Validated | SeedBegun | Seeded | Authored | Replayed | Loaded | Adopted | BusinessVerified | Repeated
    | CleanedUp | VaultCleaned

  const PROTOCOL_LENGTH: nat := 18

  /** The order in which a run that goes through completes its steps. */
  function ProtocolStep(i: nat): Event
    requires i < PROTOCOL_LENGTH
  {
    match i
    case 0 => Validated case 1 => SeedBegun case 2 => Seeded case 3 => Authored case 4 => Loaded
    case 5 => Adopted case 6 => BusinessVerified case 7 => Repeated case 8 => CleanedUp
    case 9 => Validated case 10 => SeedBegun case 11 => Seeded case 12 => Replayed case 13 => Loaded
    case 14 => Adopted case 15 => BusinessVerified case 16 => CleanedUp
    case _ => VaultCleaned
  }

  /** The log is a prefix of the protocol. */
  ghost predicate OnTrack(log: seq<Event>) {
    |log| <= PROTOCOL_LENGTH && forall i :: 0 <= i < |log| ==> log[i] == ProtocolStep(i)
  }

  /** All levels of the fixture were seeded. */
  ghost predicate FullySeeded(f: Fixture, initial: Database, d: Database) {
    exists ids, created :: SeededUpTo(f.existing, MAX_DEPTH, initial, ids, created, d)
  }

  /** What a completed step says of the database it leaves. */
  ghost predicate StepHolds(f: Fixture, initial: Database, e: Event, d: Database) {
    match e
    case Validated => d == initial && ScopeEmpty(f, d)
    case SeedBegun => d == initial
    case Seeded => FullySeeded(f, initial, d)
    case BusinessVerified => Verified(f, d)
    case CleanedUp => d == initial
    case VaultCleaned => d == initial
    case _ => true
  }

  ghost predicate StepsHold(f: Fixture, initial: Database, log: seq<Event>, states: seq<Database>) {
    |states| == |log| && forall i :: 0 <= i < |log| ==> StepHolds(f, initial, log[i], states[i])
  }

  /** What a run that completed all its steps has done: in both parts the fixture was seeded,
      the result of the load was verified, and the cleanup left the database as found. */
  lemma CompletedRun(f: Fixture, initial: Database, log: seq<Event>, states: seq<Database>)
    requires OnTrack(log) && |log| == PROTOCOL_LENGTH && StepsHold(f, initial, log, states)
    ensures forall begin :: begin in {0, 9} ==> states[begin] == initial && ScopeEmpty(f, initial)
    ensures forall seeded :: seeded in {2, 11} ==> FullySeeded(f, initial, states[seeded])
    ensures forall loaded :: loaded in {6, 15} ==> Verified(f, states[loaded])
    ensures forall end :: end in {8, 16, 17} ==> states[end] == initial
  {
    hide Verified, FullySeeded, ScopeEmpty;
    forall i: nat | i < |log| ensures StepHolds(f, initial, ProtocolStep(i), states[i]) {
      assert log[i] == ProtocolStep(i);
    }
    assert ProtocolStep(6) == ProtocolStep(15) == BusinessVerified && ProtocolStep(2) == ProtocolStep(11) == Seeded;
    assert ProtocolStep(8) == ProtocolStep(16) == CleanedUp && ProtocolStep(0) == ProtocolStep(9) == Validated;
  }

  /** A seeding has begun, and the report does not yet say that its records are retained. */
  ghost predicate SeedingOpen(log: seq<Event>) {
    log != [] && log[|log| - 1] == SeedBegun
  }

  lemma SeedingOpenAt(log: seq<Event>)
    requires OnTrack(log)
    ensures SeedingOpen(log) <==> |log| in {2, 11}
  {
  }

  /** How many protocol steps are complete while the report names a phase. */
  predicate PhaseFits(phase: Phase, steps: nat) {
    match phase
    case Authorization => steps == 0
    case Descriptor => steps == 0
    case Credentials => steps == 0
    case TargetValidation => 0 <= steps <= 1
    case SeedPhase => 1 <= steps <= 3
    case Authoring => 3 <= steps <= 4
    case AuthoringLoad => 4 <= steps <= 7
    case RepeatComparison => 7 <= steps <= 8
    case AuthoringCleanup => 8 <= steps <= 9
    case RecipeTargetValidation => 9 <= steps <= 10
    case RecipeSeed => 10 <= steps <= 12
    case RecipeApplication => 12 <= steps <= 13
    case RecipeLoad => 13 <= steps <= 16
    case RecipeCleanup => 16 <= steps <= 17
    case CredentialCleanup => 17 <= steps <= 18
    case Done => steps == 18
  }

  /** The database is as found, give or take fixture records; and if any are there, a
      target that has begun seeding is held, which it never is over an occupied scope. */
  ghost predicate Kept(f: Fixture, initial: Database, d: Database, held: bool) {
    && Integrity(initial) && Integrity(d) && AddsFixture(f, initial, d)
    && (d != initial ==> held)
    && (held ==> ScopeEmpty(f, initial))
  }

  lemma KeptWithout(f: Fixture, initial: Database, d: Database)
    ensures Kept(f, initial, d, false) ==> d == initial
    ensures Integrity(initial) ==> Kept(f, initial, initial, false)
    ensures Integrity(initial) && ScopeEmpty(f, initial) ==> Kept(f, initial, initial, true)
  {
    AddsNothing(f, initial);
  }

  lemma KeptMeans(f: Fixture, initial: Database, d: Database, held: bool)
    requires Kept(f, initial, d, held)
    ensures Integrity(initial) && Integrity(d) && AddsFixture(f, initial, d)
  {
  }

  lemma KeptAfterSeed(f: Fixture, initial: Database, d: Database)
    requires FixtureCovers(f) && Integrity(initial) && ScopeEmpty(f, initial)
    requires Integrity(d) && OnlySeeds(f.existing, initial, d)
    ensures Kept(f, initial, d, true)
  {
    SeedAdds(f, initial, d);
  }

  lemma KeptAfterLoad(f: Fixture, initial: Database, before: Database, after: Database)
    requires Kept(f, initial, before, true) && AddsFixture(f, before, after) && Integrity(after)
    ensures Kept(f, initial, after, true)
  {
    AddsTransitive(f, initial, before, after);
  }

  lemma KeptAfterCleanup(f: Fixture, initial: Database, before: Database, categories: set<Id>, products: set<Id>,
                         after: Database)
    requires Kept(f, initial, before, true) && Integrity(after)
    requires OnlyOwnedRemoved(before, categories, products, after)
    requires after == before
      || (ScopeCategories(f, before).Keys == categories && ScopeProducts(f, before).Keys == products)
    ensures Kept(f, initial, after, true)
    ensures after != before && after == WithoutOwned(before, categories, products) ==> after == initial
  {
    hide ScopeCategories, ScopeProducts, OnlyOwnedRemoved, WithoutOwned, ScopeEmpty, AddsFixture, Integrity;
    if after != before {
      PartialRemovalAdds(f, initial, before, after);
      RemovalRestores(f, initial, before);
    }
  }

  lemma CategoriesOnlyGo(before: Database, categories: set<Id>, products: set<Id>, after: Database)
    requires OnlyOwnedRemoved(before, categories, products, after)
    ensures after.categories.Keys <= before.categories.Keys
  {
  }

  /** `qualify`: the report, and the local variables its handlers look at. */
  class Run {
    const fixture: Fixture
    const remote: bool
    const server: Server
    const vault: OwnedVault.Vault
    var status: Status
    var phase: Phase
    var failed: bool
    var cleanup: CleanupReport
    var target: Target?
    var journeyOpen: bool
    ghost const initial: Database
    ghost var log: seq<Event>
    /** The database at each completed step. */
    ghost var states: seq<Database>
    /** The database at the start of each seeding. */
    ghost var seedStarts: seq<Database>

    constructor (fixture: Fixture, remote: bool, server: Server, vault: OwnedVault.Vault)
      ensures this.fixture == fixture && this.remote == remote && this.server == server && this.vault == vault
      ensures initial == server.database
      ensures status == Failed && phase == Authorization && !failed && cleanup == NotNeeded
      ensures target == null && !journeyOpen && log == [] && states == [] && seedStarts == []
    {
      this.fixture, this.remote, this.server, this.vault, initial := fixture, remote, server, vault, server.database;
      status, phase, failed, cleanup := Failed, Authorization, false, NotNeeded;
      target, journeyOpen, log, states, seedStarts := null, false, [], [], [];
    }

    ghost predicate Held()
      reads this`target, target
    {
      target != null && target.seeded
    }

    ghost predicate Sound()
      reads this`target, this`seedStarts, target, server, vault
    {
      && vault.Ledgered()
      && (target != null ==> target.server == server && target.fixture == fixture)
      && Kept(fixture, initial, server.database, Held())
      && IdsBelowNext()
      && StartsClean()
    }

    ghost predicate IdsBelowNext()
      reads server`database, server`nextId
    {
      forall id :: id in server.database.categories ==> id < server.nextId
    }

    /** No seeding has started over leftovers. */
    ghost predicate StartsClean()
      reads this`seedStarts
    {
      forall i :: 0 <= i < |seedStarts| ==> seedStarts[i] == initial
    }

    /** The log keeps to the protocol, and each step has done what it says. */
    ghost predicate Tracked()
      reads this`log, this`states
    {
      OnTrack(log) && StepsHold(fixture, initial, log, states)
    }

    /** One more step of the protocol is complete. */
    ghost method Note(e: Event)
      requires Tracked() && |log| < PROTOCOL_LENGTH && ProtocolStep(|log|) == e
      requires StepHolds(fixture, initial, e, server.database)
      modifies this`log, this`states
      ensures Tracked() && |log| == |old(log)| + 1
    {
      log, states := log + [e], states + [server.database];
    }

    // ---------- Steps on the target ----------

    /** `target = target_factory(...)` and `target.validate()`. */
    method OpenTarget() returns (raised: bool)
      requires Sound() && target == null
      requires Tracked() && |log| in {0, 9}
      modifies this`target, this`log, this`states, server`requests
      ensures Sound() && !Held() && (target == null || fresh(target))
      ensures Tracked() && |log| == |old(log)| + (if raised then 0 else 1)
      ensures !raised ==> target != null && server.database == initial && ScopeEmpty(fixture, initial)
    {
      KeptWithout(fixture, initial, server.database);
      if * { return true; }
      target := new Target(fixture, remote, server);
      var others: bool := *;
      var valid := target.Validate(others);
      if valid.Err? { return true; }
      if * { return true; }
      Note(Validated);
      return false;
    }

    /** `target.seed()`. */
    method SeedTarget() returns (raised: bool)
      requires Sound() && FixtureCovers(fixture) && target != null
      requires server.database == initial && ScopeEmpty(fixture, initial)
      requires Tracked() && |log| in {1, 10}
      modifies this`log, this`states, this`seedStarts, target, server
      ensures Sound() && Held()
      ensures |seedStarts| == |old(seedStarts)| + 1
      ensures Tracked() && |log| == |old(log)| + 1
      ensures !raised ==> FullySeeded(fixture, initial, server.database)
    {
      hide Kept, ScopeEmpty, FixtureCovers, AddsFixture, OnlySeeds, SeededUpTo, Tracked;
      KeptMeans(fixture, initial, server.database, Held());
      Note(SeedBegun);
      seedStarts := seedStarts + [server.database];
      var cut: Option<SeedCut> := *;
      var seeding, ids, created := target.Seed(cut);
      KeptAfterSeed(fixture, initial, server.database);
      if seeding.Err? { return true; }
      assert SeededUpTo(fixture.existing, MAX_DEPTH, initial, ids, created, server.database);
      return false;
    }

    /** `journey.load(...)`, `target.adopt_verified(run)` and `target.verify_business()`. The
        load is outside this model: it may create any fixture records, raise at any point, and
        come back with any receipt. */
    method LoadAndVerify(completed: bool, committed: nat, rows: seq<ReceiptRow>) returns (raised: bool)
      requires Sound() && Held()
      requires Tracked() && |log| in {4, 13}
      modifies this`log, this`states, target, server
      ensures Sound() && Held()
      ensures Tracked() && |old(log)| <= |log| <= |old(log)| + 3 && (!raised <==> |log| == |old(log)| + 3)
      ensures |log| >= |old(log)| + 2 ==>
        completed && committed == fixture.expectedCommits && ReceiptsValid(rows)
        && target.Owned() == Claim(old(target.ownedCategories) + Receipted(rows, CategoryModel),
                                   old(target.ownedProducts) + Receipted(rows, ProductModel), ProposedIds(rows))
      ensures !raised ==> Verified(fixture, server.database)
    {
      hide Sound, Verified, Receipted, Tracked, ReceiptsValid, ProposedIds;
      raised := LoadAndAdopt(completed, committed, rows);
      if raised { return; }
      if * { return true; }
      var business := VerifyTarget();
      if business.Err? { return true; }
      Note(BusinessVerified);
      return false;
    }

    /** `target.verify_business()`. */
    method VerifyTarget() returns (r: Result<(), Failure>)
      requires Sound() && Held()
      modifies server`requests
      ensures Sound() && (r.Ok? ==> Verified(fixture, server.database))
    {
      hide Kept, Verified, FailureFits, BusinessReadable, OwnedVault.Vault.Ledgered;
      r := target.VerifyBusiness();
    }

    /** `journey.load(...)` and `target.adopt_verified(run)`. */
    method LoadAndAdopt(completed: bool, committed: nat, rows: seq<ReceiptRow>) returns (raised: bool)
      requires Sound() && Held()
      requires Tracked() && |log| in {4, 13}
      modifies this`log, this`states, target, server
      ensures Sound() && Held()
      ensures Tracked() && |old(log)| <= |log| <= |old(log)| + 2 && (!raised <==> |log| == |old(log)| + 2)
      ensures !raised ==>
        completed && committed == fixture.expectedCommits && ReceiptsValid(rows)
        && target.Owned() == Claim(old(target.ownedCategories) + Receipted(rows, CategoryModel),
                                   old(target.ownedProducts) + Receipted(rows, ProductModel), ProposedIds(rows))
    {
      hide Kept, Receipted, Tracked, ReceiptsValid, ProposedIds, OwnedVault.Vault.Ledgered;
      Load();
      if * { return true; }
      Note(Loaded);
      var adopted := target.AdoptVerified(completed, committed, rows);
      if adopted.Err? { return true; }
      Note(Adopted);
      return false;
    }

    /** The journey stores credentials of its own and takes some back; calls may be refused or cut short. */
    method UseVault()
      requires Sound()
      modifies vault
      ensures Sound() && (old(vault.Exclusive()) ==> vault.Exclusive() && vault.Foreign() == old(vault.Foreign()))
    {
      hide Kept;
      var calls: nat :| calls >= 0;
      for i := 0 to calls
        invariant Sound() && (old(vault.Exclusive()) ==> vault.Exclusive() && vault.Foreign() == old(vault.Foreign()))
      {
        var id: string, secret: string, done: nat, storing := *, *, *, *;
        if storing {
          var stored := vault.Set(id, secret, done);
        } else {
          var deleted := vault.Delete(id, done);
        }
      }
    }

    method Load()
      requires Sound() && Held()
      modifies server`database, server`nextId
      ensures Sound()
    {
      var after: Database, next: nat := *, *;
      if AddsFixture(fixture, server.database, after) && Integrity(after)
         && forall id :: id in after.categories ==> id < next {
        KeptAfterLoad(fixture, initial, server.database, after);
        server.database, server.nextId := after, next;
      }
    }

    /** `target.cleanup()`. */
    method CleanTarget() returns (raised: bool)
      requires Sound() && Held()
      requires Tracked() && |log| in {8, 16}
      modifies this`log, this`states, server
      ensures Sound() && Held()
      ensures Tracked() && |log| == |old(log)| + (if raised then 0 else 1)
      ensures !raised ==> server.database == initial
    {
      hide Kept, AddsFixture, Integrity, ScopeCategories, ScopeProducts, OnlyOwnedRemoved, WithoutOwned, SafeSince,
        RoundsByHeight, Acceptable, ChecksReadable, Verified, CheckFits, ScopeEmpty, Tracked, OwnedVault.Vault.Ledgered;
      KeptMeans(fixture, initial, server.database, true);
      ghost var before := server.database;
      var cleaned, rounds := target.Cleanup();
      KeptAfterCleanup(fixture, initial, before, target.ownedCategories, target.ownedProducts, server.database);
      CategoriesOnlyGo(before, target.ownedCategories, target.ownedProducts, server.database);
      if cleaned.Err? { return true; }
      KeptMeans(fixture, initial, server.database, true);
      EmptyScopeIsInitial(fixture, initial, server.database);
      Note(CleanedUp);
      return false;
    }

    // ---------- The run ----------

    /** The run claims no credential any more but the protected ones, as the ledger says. */
    ghost predicate VaultIsClean()
      reads vault
    {
      vault.ledger == Some(vault.owned) && forall id :: id in vault.owned ==> OwnedVault.IsProtected(id)
    }

    /** The report agrees with what has happened, up to what the handler still adds. */
    ghost predicate Reported()
      reads this, target
    {
      && Tracked()
      && (Held() ==> seedStarts != [])
      && (!Held() ==> (cleanup == NotNeeded <==> seedStarts == []))
      && (cleanup == Complete ==> |log| >= 9)
      && |seedStarts| <= 2
      && PhaseFits(phase, |log|)
      && (|log| in {2, 11} ==> Held() && cleanup == if |seedStarts| == 1 then NotNeeded else Complete)
      && (Held() && |log| !in {2, 11} ==> cleanup == Retained)
    }

    /** The first statements of either part: a validated target, seeded. */
    method OpenAndSeed(validating: Phase, seeding: Phase) returns (raised: bool)
      requires Sound() && Reported() && FixtureCovers(fixture) && target == null
      requires if |log| == 0 then validating == TargetValidation && seeding == SeedPhase
               else |log| == 9 && validating == RecipeTargetValidation && seeding == RecipeSeed
      requires if |log| == 0 then seedStarts == [] else |seedStarts| == 1 && cleanup == Complete
      modifies this`phase, this`cleanup, this`target, this`log, this`states, this`seedStarts, server
      ensures Sound() && Reported() && (target == null || fresh(target))
      ensures !raised ==>
        Held() && cleanup == Retained && |log| == |old(log)| + 3 && |seedStarts| == |old(seedStarts)| + 1
    {
      hide Sound, ScopeEmpty, FixtureCovers, Tracked, FullySeeded;
      phase := validating;
      raised := OpenTarget();
      if raised { return; }
      phase := seeding;
      if * { return true; }
      raised := SeedTarget();
      if raised { return; }
      if * { return true; }
      cleanup := Retained;
      Note(Seeded);
      return false;
    }

    /** The last statements of either part: clean up, let go of the target, report it. */
    method CleanAndClose(cleaning: Phase) returns (raised: bool)
      requires Sound() && Reported() && Held() && cleanup == Retained
      requires if |log| == 8 then cleaning == AuthoringCleanup else |log| == 16 && cleaning == RecipeCleanup
      modifies this`phase, this`cleanup, this`target, this`log, this`states, server
      ensures Sound() && Reported() && (target == null || target == old(target))
      ensures !raised ==> target == null && |log| == |old(log)| + 1 && cleanup == Complete
    {
      hide IdsBelowNext, StartsClean, Kept, Tracked;
      phase := cleaning;
      if * { return true; }
      raised := CleanTarget();
      if raised { return; }
      if * { return true; }
      LetGo(fixture, initial, server.database, Held());
      target := null;
      if * { return true; }
      cleanup := Complete;
      return false;
    }

    method AuthoringPart() returns (raised: bool)
      requires Sound() && Reported() && FixtureCovers(fixture)
      requires target == null && log == [] && seedStarts == [] && phase == Credentials
      modifies this`phase, this`cleanup, this`target, this`journeyOpen, this`log, this`states, this`seedStarts, server,
        vault
      ensures old(vault.Exclusive()) ==> vault.Exclusive() && vault.Foreign() == old(vault.Foreign())
      ensures Sound() && Reported() && (target == null || fresh(target))
      ensures !raised ==> target == null && |log| == 9 && cleanup == Complete && |seedStarts| == 1
    {
      hide IdsBelowNext, StartsClean, Kept, FixtureCovers, Tracked, Verified, OwnedVault.Vault.Exclusive,
        OwnedVault.Vault.Foreign, OwnedVault.Vault.Ledgered;
      raised := OpenAndSeed(TargetValidation, SeedPhase);
      if raised { return; }
      if * { return true; }
      raised := Prepare(Authoring, Authored);
      if raised { return; }
      raised := LoadPhase(AuthoringLoad);
      if raised { return; }
      if * { return true; }
      raised := Compare();
      if raised { return; }
      raised := CleanAndClose(AuthoringCleanup);
    }

    /** The journey's own work before a load: authoring, or replaying the recipe. */
    method Prepare(preparing: Phase, step: Event) returns (raised: bool)
      requires Sound() && Reported() && Held() && cleanup == Retained
      requires if |log| == 3 then preparing == Authoring && step == Authored
               else |log| == 12 && preparing == RecipeApplication && step == Replayed
      modifies this`phase, this`journeyOpen, this`log, this`states, vault
      ensures old(vault.Exclusive()) ==> vault.Exclusive() && vault.Foreign() == old(vault.Foreign())
      ensures Sound() && Reported() && |log| == |old(log)| + (if raised then 0 else 1)
    {
      hide IdsBelowNext, StartsClean, Kept, Tracked, OwnedVault.Vault.Exclusive, OwnedVault.Vault.Foreign,
        OwnedVault.Vault.Ledgered;
      phase := preparing;
      if * { return true; }
      if preparing == Authoring { journeyOpen := true; }
      UseVault();
      if * { return true; }
      Note(step);
      return false;
    }

    /** The load and its checks, in either part. */
    method LoadPhase(loading: Phase) returns (raised: bool)
      requires Sound() && Reported() && Held() && cleanup == Retained
      requires if |log| == 4 then loading == AuthoringLoad else |log| == 13 && loading == RecipeLoad
      modifies this`phase, this`log, this`states, target, server
      ensures Sound() && Reported() && Held() && target == old(target)
      ensures !raised ==> |log| == |old(log)| + 3 && Verified(fixture, server.database)
    {
      hide IdsBelowNext, StartsClean, Kept, Tracked, Verified;
      phase := loading;
      var completed: bool, committed: nat, rows: seq<ReceiptRow> := *, *, *;
      raised := LoadAndVerify(completed, committed, rows);
    }

    /** The repeat comparison after the first load. */
    method Compare() returns (raised: bool)
      requires Sound() && Reported() && Held() && |log| == 7
      modifies this`phase, this`log, this`states
      ensures Sound() && Reported() && |log| == (if raised then 7 else 8)
    {
      hide IdsBelowNext, StartsClean, Kept, Tracked;
      phase := RepeatComparison;
      if * { return true; }
      Note(Repeated);
      return false;
    }

    method RecipePart() returns (raised: bool)
      requires Sound() && Reported() && FixtureCovers(fixture)
      requires target == null && |log| == 9 && |seedStarts| == 1 && cleanup == Complete
      modifies this`phase, this`cleanup, this`target, this`journeyOpen, this`log, this`states, this`seedStarts, server,
        vault
      ensures old(vault.Exclusive()) ==> vault.Exclusive() && vault.Foreign() == old(vault.Foreign())
      ensures Sound() && Reported() && (target == null || fresh(target))
      ensures !raised ==> target == null && |log| == 17 && cleanup == Complete
    {
      hide IdsBelowNext, StartsClean, Kept, FixtureCovers, Tracked, Verified, OwnedVault.Vault.Exclusive,
        OwnedVault.Vault.Foreign, OwnedVault.Vault.Ledgered;
      raised := OpenAndSeed(RecipeTargetValidation, RecipeSeed);
      if raised { return; }
      if * { return true; }
      raised := Prepare(RecipeApplication, Replayed);
      if raised { return; }
      raised := LoadPhase(RecipeLoad);
      if raised { return; }
      if * { return true; }
      raised := CleanAndClose(RecipeCleanup);
    }

    /** The `try` body. */
    method Attempt() returns (raised: bool)
      requires Sound() && Reported() && FixtureCovers(fixture)
      requires target == null && log == [] && seedStarts == [] && status == Failed && phase == Authorization
      modifies this, server, vault
      ensures old(vault.Exclusive()) ==> vault.Exclusive() && vault.Foreign() == old(vault.Foreign())
      ensures Sound() && Reported() && (target == null || fresh(target))
      ensures status == Passed ==> |log| == PROTOCOL_LENGTH && target == null && cleanup == Complete && VaultIsClean()
      ensures !raised ==> status == Passed && phase == Done
    {
      hide IdsBelowNext, StartsClean, Kept, FixtureCovers, Tracked;
      if * { return true; }
      phase := Descriptor;
      if * { return true; }
      phase := Credentials;
      if * { return true; }
      raised := AuthoringPart();
      if raised { return; }
      if * { return true; }
      raised := RecipePart();
      if raised { return; }
      if * { return true; }
      raised := Finish();
    }

    /** The vault cleanup and the verdict. */
    method Finish() returns (raised: bool)
      requires Sound() && Reported() && target == null && |log| == 17 && cleanup == Complete && status == Failed
      modifies this`status, this`phase, this`log, this`states, vault
      ensures old(vault.Exclusive()) ==> vault.Exclusive() && vault.Foreign() == old(vault.Foreign())
      ensures Sound() && Reported() && (status == Passed ==> |log| == PROTOCOL_LENGTH && VaultIsClean())
      ensures !raised ==> status == Passed && phase == Done
    {
      hide Sound, Tracked, VaultIsClean, OwnedVault.Vault.Exclusive, OwnedVault.Vault.Foreign;
      phase := CredentialCleanup;
      if * { return true; }
      raised := CleanVault();
      if raised { return; }
      Note(VaultCleaned);
      if * { return true; }
      status := Passed;
      if * { return true; }
      phase := Done;
      return false;
    }

    /** `owned_vault.cleanup()`. */
    method CleanVault() returns (raised: bool)
      requires Sound() && !Held()
      modifies vault
      ensures Sound() && server.database == initial && (!raised ==> VaultIsClean())
      ensures old(vault.Exclusive()) ==> vault.Exclusive() && vault.Foreign() == old(vault.Foreign())
    {
      hide Kept, OwnedVault.Vault.Exclusive, OwnedVault.Vault.Foreign, OwnedVault.Vault.Ledgered;
      KeptWithout(fixture, initial, server.database);
      var done: nat := *;
      var cleaned, calls := vault.Cleanup(done);
      return cleaned.Err?;
    }

    /** `qualify`, whatever raises and whenever. The receipt is what the fields say at the end.
        It claims that nothing was needed, or that cleanup is complete, over a database with
        records left exactly if its own handler was cut short and the first exception struck
        after a seeding had made records and before the report said so. Otherwise it claims
        that nothing was needed only if no seeding began. It reports success only if every step
        of both parts and the vault cleanup was completed. At all times the records that were
        there before are untouched, and no seeding starts over leftovers. */
    method Qualify(handlerCut: HandlerCut)
      requires FixtureCovers(fixture) && Integrity(server.database) && server.database == initial && vault.Ledgered()
      requires forall id :: id in server.database.categories ==> id < server.nextId
      requires status == Failed && phase == Authorization && cleanup == NotNeeded
      requires target == null && !journeyOpen && log == [] && states == [] && seedStarts == []
      modifies this, server, vault
      ensures old(vault.Exclusive()) ==> vault.Exclusive() && vault.Foreign() == old(vault.Foreign())
      ensures cleanup in {NotNeeded, Complete} && server.database != initial
        <==> handlerCut != Through && SeedingOpen(log) && server.database != initial
      ensures Held() && handlerCut == Through ==>
        cleanup == if phase in {AuthoringCleanup, RecipeCleanup, CredentialCleanup} then Incomplete else Retained
      ensures Held() && handlerCut != Through && !SeedingOpen(log) ==> cleanup == Retained
      ensures PhaseFits(phase, |log|) && (status == Failed && handlerCut != BeforeCode ==> failed)
      ensures handlerCut == Through || !SeedingOpen(log) ==> (cleanup == NotNeeded <==> seedStarts == [])
      ensures cleanup == Complete ==> |log| >= 9
      ensures status == Passed ==> |log| == PROTOCOL_LENGTH && cleanup == Complete && VaultIsClean()
      ensures status == Passed ==> server.database == initial
      ensures OnTrack(log) && StepsHold(fixture, initial, log, states)
      ensures AddsFixture(fixture, initial, server.database) && Integrity(server.database)
      ensures |seedStarts| <= 2 && forall i :: 0 <= i < |seedStarts| ==> seedStarts[i] == initial
    {
      hide Kept, FixtureCovers, AddsFixture, Integrity, OnTrack, StepsHold, SeedingOpen, PhaseFits,
        OwnedVault.Vault.Exclusive, OwnedVault.Vault.Foreign, OwnedVault.Vault.Ledgered;
      KeptWithout(fixture, initial, server.database);
      NoSteps(fixture, initial);
      var raised := Attempt();
      SeedingOpenAt(log);
      KeptMeans(fixture, initial, server.database, Held());
      KeptWithout(fixture, initial, server.database);
      if raised { Handle(handlerCut); }
      Close();
    }

    /** The handler of the first exception. Once through, it leaves a report that claims an
        unchanged or restored database only where that is so. */
    method Handle(cut: HandlerCut)
      requires Sound() && Reported()
      modifies this`failed, this`cleanup
      ensures cut == Through && cleanup in {NotNeeded, Complete} ==> server.database == initial && !Held()
      ensures cut == Through && Held() ==>
        cleanup == if phase in {AuthoringCleanup, RecipeCleanup, CredentialCleanup} then Incomplete else Retained
      ensures cut != Through || !Held() ==> cleanup == old(cleanup)
      ensures failed == (old(failed) || cut != BeforeCode)
    {
      hide Kept, Tracked, PhaseFits;
      KeptWithout(fixture, initial, server.database);
      if cut == BeforeCode { return; }
      failed := true;
      if cut == BeforeCleanup { return; }
      if target != null && target.seeded {
        cleanup := if NamesCleanup(phase) then Incomplete else Retained;
      }
    }

    /** The end of the run: closing the journey may still fail it. */
    method Close()
      modifies this`status, this`failed
      ensures (status == old(status) && failed == old(failed)) || (status == Failed && failed)
    {
      if journeyOpen {
        var closeRaised := *;
        if closeRaised { status, failed := Failed, true; }
      }
    }
  }

  lemma NoSteps(f: Fixture, initial: Database)
    ensures OnTrack([]) && StepsHold(f, initial, [], []) && PhaseFits(Authorization, 0)
  {
  }

  lemma EverAnswered(link: Link, first: nat, end: nat)
    requires forall n :: link(n) == Answered
    ensures AllAnswered(link, first, end)
  {
  }

  /** Nothing is there yet of a fixture with one category to seed. */
  lemma OneCategory(f: Fixture, empty: Database)
    requires f.existing == [["All"]] && f.categoryNames == {"All"} && empty == Database(map[], map[], map[], map[])
    ensures FixtureCovers(f) && Integrity(empty) && ScopeEmpty(f, empty)
  {
    assert Elements([["All"]]) == {["All"]} && Leaf(["All"]) == "All";
    assert SeedNames({["All"]}) == {"All"};
  }

  lemma OneLeft(answers: seq<seq<Id>>, d: Database)
    requires AllIds(answers) <= d.categories.Keys && |answers| > 0 && answers[0] != []
    ensures d.categories != map[]
  {
    var b := answers[0];
    assert b in answers && b[0] in b;
    assert b[0] in AllIds(answers);
  }

  /** A finished seeding of one category has created it. */
  lemma OneCreated(f: Fixture, empty: Database, ids: map<Path, Id>, created: map<Id, Path>, d: Database)
    requires f.existing == [["All"]] && SeededUpTo(f.existing, MAX_DEPTH, empty, ids, created, d)
    ensures created.Keys != {}
  {
    assert ["All"] in Elements(f.existing);
    assert ["All"] in UpTo(Elements(f.existing), MAX_DEPTH);
    assert ids[["All"]] in created.Keys;
  }

  /** One category is seeded into an empty database, and an interruption follows the answer. */
  method CutSeeding(target: Target)
    requires target.fixture.existing == [["All"]] && target.server.acknowledged == []
    requires target.server.database == Database(map[], map[], map[], map[]) && target.IdsBelowNext()
    requires forall n :: target.server.link(n) == Answered
    modifies target`seeded, target`ownedCategories, target.server
    ensures target.seeded && target.server.database.categories != map[] && target.IdsBelowNext()
    ensures OnlySeeds(target.fixture.existing, old(target.server.database), target.server.database)
    ensures Integrity(target.server.database)
  {
    hide SeededUpTo, OnlySeeds, AllIds, AllAnswered;
    ghost var request, empty := target.server.requests, target.server.database;
    var seeding, ids, created := target.Seed(Some(SeedCut(0, false)));
    EverAnswered(target.server.link, request, target.server.requests);
    NoAnswer();
    if seeding.Ok? { OneCreated(target.fixture, empty, ids, created, target.server.database); }
    ghost var answers := target.Answers(0);
    assert |answers| > 0 && answers[0] in answers;
    OneLeft(answers, target.server.database);
  }

  /** A run up to its first seeding, over an empty database that answers everything. */
  method ValidatedRun() returns (run: Run, target: Target)
    ensures fresh(run) && fresh(run.server) && fresh(target) && run.target == target && target.server == run.server
    ensures run.initial == run.server.database == Database(map[], map[], map[], map[])
    ensures run.fixture.existing == [["All"]] && run.fixture.categoryNames == {"All"} && target.fixture == run.fixture
    ensures run.server.acknowledged == [] && target.IdsBelowNext() && forall n :: run.server.link(n) == Answered
    ensures run.Tracked() && |run.log| == 1 && run.seedStarts == [] && run.vault.Ledgered()
    ensures run.status == Failed && run.cleanup == NotNeeded && !run.journeyOpen
  {
    hide StepsHold, OnTrack, ScopeEmpty, Integrity, FixtureCovers, AllAnswered, OwnedVault.Vault.Ledgered;
    var f := TargetChecks.Fixture({"All"}, {}, [["All"]], {["All"]}, map[], 0);
    var empty := Database(map[], map[], map[], map[]);
    var server := new Server(empty, 1, (n: nat) => Answered);
    var vault := new OwnedVault.Vault(map[]);
    run := new Run(f, false, server, vault);
    NoSteps(f, empty);
    OneCategory(f, empty);
    run.phase := TargetValidation;
    target := new Target(f, false, server);
    run.target := target;
    var valid := target.Validate(true);
    EverAnswered(server.link, 0, server.requests);
    run.Note(Validated);
  }

  /** The smallest misleading receipt: the answer to the first category seeded is followed by
      an interruption, and a second interruption keeps the handler from correcting the report.
      The statements are those of `OpenTarget`, `SeedTarget` and `Qualify`, with these choices. */
  method MisleadingRun() returns (run: Run)
    ensures fresh(run) && run.cleanup == NotNeeded && run.status == Failed && run.phase == SeedPhase
    ensures run.initial == Database(map[], map[], map[], map[]) && run.server.database != run.initial && run.Held()
  {
    hide Kept, OnlySeeds, Integrity, ScopeEmpty, FixtureCovers, StepsHold, OnTrack, OwnedVault.Vault.Ledgered;
    var target;
    run, target := ValidatedRun();
    OneCategory(run.fixture, run.initial);
    run.phase := SeedPhase;
    run.Note(SeedBegun);
    run.seedStarts := [run.server.database];
    CutSeeding(target);
    KeptAfterSeed(run.fixture, run.initial, run.server.database);
    run.Handle(BeforeCleanup);
    run.Close();
  }

  lemma LetGo(f: Fixture, initial: Database, d: Database, held: bool)
    requires Kept(f, initial, d, held) && d == initial
    ensures Kept(f, initial, d, false)
  {
  }
}
