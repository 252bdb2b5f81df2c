/** What the disposable qualification target is checked for: the fixture, bounded reads, and
    the comparison of the target with the expected business result. */
module TargetChecks {
  import opened Orders
  import opened Wrappers
  import opened Counting
  import opened Lineage
  import opened Seeding
  import opened Store

  /** The fixture the module-level constants describe. */
  datatype Fixture = Fixture(
    categoryNames: set<string>,
    references: set<string>,
    existing: seq<Path>,
    expectedPaths: set<Path>,
    expectedProducts: map<string, Path>,
    expectedCommits: nat)

  datatype Failure =
    | Unavailable
    | FixtureReadTruncated
    | FixtureScopeNotEmpty
    | ExecutionIncomplete
    | ReceiptInvalid
    | CategoryLineageInvalid
    | CategoryPathsDiffer
    | ProductPathsDiffer
    | ProductVariantsDiffer
    | OwnershipMismatch
    | ForeignDependent
    | ExternalIdMismatch
    | CleanupUncertain
    | CategoryCycle
    | Interrupted
    | AbsenceUnproven
    | VariantsRemain
    | ExternalIdsRemain

  const READ_LIMIT: nat := 100

  /** A row of the execution receipt: no model if it is neither of the two owned ones, and
      id 0 for a missing or invalid identifier. */
  datatype ReceiptRow = ReceiptRow(model: Option<Model>, id: Id, committed: bool, proposed: Option<ExternalId>)

  ghost predicate ReceiptsValid(rows: seq<ReceiptRow>) {
    forall row :: row in rows && row.committed ==> row.model.Some? && row.id > 0
  }

  ghost function Receipted(rows: seq<ReceiptRow>, model: Model): set<Id> {
    set row | row in rows && row.committed && row.model == Some(model) :: row.id
  }

  function ProposedIds(rows: seq<ReceiptRow>): set<ExternalId> {
    set row | row in rows && row.proposed.Some? :: row.proposed.value
  }

  lemma ReceiptedGrows(rows: seq<ReceiptRow>, row: ReceiptRow)
    ensures forall m :: Receipted(rows + [row], m) == Receipted(rows, m) + Receipted([row], m)
  {
    assert forall r :: r in rows + [row] <==> r in rows || r == row;
  }

  lemma ReceiptedPart(rows: seq<ReceiptRow>, i: nat)
    requires i <= |rows|
    ensures forall m :: Receipted(rows[..i], m) <= Receipted(rows, m)
  {
  }

  // ---------- What the checks read ----------

  function ScopeCategories(f: Fixture, d: Database): Rows {
    map id | id in d.categories && d.categories[id].name in f.categoryNames :: d.categories[id]
  }

  function ScopeProducts(f: Fixture, d: Database): map<Id, Product> {
    map id | id in d.products && d.products[id].reference in f.references :: d.products[id]
  }

  predicate ScopeEmpty(f: Fixture, d: Database) {
    ScopeCategories(f, d) == map[] && ScopeProducts(f, d) == map[]
  }

  /** The path of the category a product names, if that category is in scope. */
  function ProductPath(rows: Rows, p: Product): Option<Path> {
    if p.category.Some? && p.category.value in rows then PathOf(rows, p.category.value, {}) else None
  }

  function PathMap(rows: Rows): map<Id, Path>
    requires LineageAccepts(rows)
  {
    map id | id in rows :: PathOf(rows, id, {}).value
  }

  function ReferenceMap(products: map<Id, Product>): map<Id, string> {
    map id | id in products :: products[id].reference
  }

  function VariantMap(d: Database, products: set<Id>): map<Id, Id> {
    map v | v in VariantsOf(d, products) :: d.variants[v]
  }

  ghost predicate ProductPathsMatch(f: Fixture, rows: Rows, products: map<Id, Product>) {
    forall id :: id in products ==>
      && products[id].reference in f.expectedProducts
      && ProductPath(rows, products[id]) == Some(f.expectedProducts[products[id].reference])
  }

  /** The business result in the target: categories and expected paths correspond one to
      one, and so do products and expected references, each with its path and one variant. */
  ghost predicate Verified(f: Fixture, d: Database) {
    var rows, products := ScopeCategories(f, d), ScopeProducts(f, d);
    && LineageAccepts(rows)
    && OneToOne(PathMap(rows), f.expectedPaths)
    && OneToOne(ReferenceMap(products), f.expectedProducts.Keys)
    && ProductPathsMatch(f, rows, products)
    && OneToOne(VariantMap(d, products.Keys), products.Keys)
  }

  /** What the business check reads is below the limit. */
  ghost predicate BusinessReadable(f: Fixture, d: Database) {
    && |ScopeCategories(f, d).Keys| < READ_LIMIT
    && |ScopeProducts(f, d).Keys| < READ_LIMIT
    && |VariantsOf(d, ScopeProducts(f, d).Keys)| < READ_LIMIT
  }

  /** The comparison that a failure of the business check reports. */
  ghost predicate FailureFits(f: Fixture, d: Database, e: Failure) {
    var rows, products := ScopeCategories(f, d), ScopeProducts(f, d);
    match e
    case CategoryLineageInvalid => !LineageAccepts(rows)
    case CategoryPathsDiffer => LineageAccepts(rows) && !OneToOne(PathMap(rows), f.expectedPaths)
    case ProductPathsDiffer =>
      !(OneToOne(ReferenceMap(products), f.expectedProducts.Keys) && ProductPathsMatch(f, rows, products))
    case ProductVariantsDiffer => !OneToOne(VariantMap(d, products.Keys), products.Keys)
    case _ => false
  }

  /** A read of the matching records, answered or not: refused at the limit. */
  method Read(matching: set<Id>, answered: bool) returns (r: Result<seq<Id>, Failure>)
    ensures r.Ok? <==> answered && |matching| < READ_LIMIT
    ensures r.Ok? ==> Elements(r.value) == matching && NoDuplicates(r.value) && |r.value| == |matching|
    ensures r.Err? ==> r.error == if answered then FixtureReadTruncated else Unavailable
  {
    if !answered { return Err(Unavailable); }
    if |matching| >= READ_LIMIT { return Err(FixtureReadTruncated); }
    var rows, rest := [], matching;
    while rest != {}
      invariant rest <= matching && Elements(rows) == matching - rest && NoDuplicates(rows)
      invariant |rows| + |rest| == |matching|
      decreases rest
    {
      var id :| id in rest;
      assert forall x :: x in rows <==> x in Elements(rows);
      assert forall x :: x in rows + [id] <==> x in rows || x == id;
      rows, rest := rows + [id], rest - {id};
    }
    return Ok(rows);
  }

  /** `actual` of the source: for each reference read, the path of its product's category. */
  method ActualPaths(rows: Rows, products: map<Id, Product>, ids: seq<Id>) returns (actual: map<string, Option<Path>>)
    requires Elements(ids) == products.Keys
    ensures IsActual(rows, products, actual)
  {
    actual := map[];
    for i := 0 to |ids|
      invariant forall id :: id in ids[..i] ==> id in products && products[id].reference in actual
      invariant forall r :: r in actual ==>
        exists id :: id in products && products[id].reference == r && ProductPath(rows, products[id]) == actual[r]
    {
      assert ids[i] in Elements(ids);
      var p := products[ids[i]];
      assert ids[..i + 1] == ids[..i] + [ids[i]];
      actual := actual[p.reference := ProductPath(rows, p)];
    }
    assert ids[..|ids|] == ids;
    forall r ensures r in actual <==> r in ReferenceMap(products).Values {
      if r in ReferenceMap(products).Values {
        var id :| id in products && products[id].reference == r;
        assert id in Elements(ids);
      }
      if r in actual {
        var id :| id in products && products[id].reference == r;
        assert ReferenceMap(products)[id] == r;
      }
    }
  }

  function Wrapped(m: map<string, Path>): map<string, Option<Path>> {
    map r | r in m :: Some(m[r])
  }

  /** `actual` of the source holds, for each reference, the path of some product with it. */
  ghost predicate IsActual(rows: Rows, products: map<Id, Product>, actual: map<string, Option<Path>>) {
    && actual.Keys == ReferenceMap(products).Values
    && forall r :: r in actual ==>
      exists id :: id in products && products[id].reference == r && ProductPath(rows, products[id]) == actual[r]
  }

  /** Comparing counts and dictionaries is comparing one to one. */
  lemma ProductChecks(f: Fixture, rows: Rows, products: map<Id, Product>, actual: map<string, Option<Path>>)
    requires IsActual(rows, products, actual)
    ensures |products| == |f.expectedProducts| && actual == Wrapped(f.expectedProducts) <==>
      OneToOne(ReferenceMap(products), f.expectedProducts.Keys) && ProductPathsMatch(f, rows, products)
  {
    var refs := ReferenceMap(products);
    assert refs.Keys == products.Keys;
    assert Wrapped(f.expectedProducts).Keys == f.expectedProducts.Keys;
    OneToOneByCount(refs, f.expectedProducts.Keys);
    if OneToOne(refs, f.expectedProducts.Keys) {
      ActualIsFunctional(rows, products, actual);
      hide OneToOne, Injective, IsActual, ProductPath;
      if ProductPathsMatch(f, rows, products) {
        forall r | r in actual ensures actual[r] == Some(f.expectedProducts[r]) {
          var id :| id in refs && refs[id] == r;
          assert products[id].reference == r;
        }
        assert actual == Wrapped(f.expectedProducts);
      }
      if actual == Wrapped(f.expectedProducts) {
        forall id | id in products ensures products[id].reference in f.expectedProducts {
          assert refs[id] in refs.Values;
        }
      }
    }
  }

  /** What `verify_business` compares before it reads the variants. */
  ghost predicate Compares(f: Fixture, rows: Rows, products: map<Id, Product>) {
    && LineageAccepts(rows) && OneToOne(PathMap(rows), f.expectedPaths)
    && OneToOne(ReferenceMap(products), f.expectedProducts.Keys) && ProductPathsMatch(f, rows, products)
  }

  lemma VerdictOf(f: Fixture, d: Database)
    ensures var products := ScopeProducts(f, d);
      && (Verified(f, d) <==>
            Compares(f, ScopeCategories(f, d), products) && OneToOne(VariantMap(d, products.Keys), products.Keys))
      && (FailureFits(f, d, ProductVariantsDiffer) <==> !OneToOne(VariantMap(d, products.Keys), products.Keys))
    ensures forall e :: FailureFits(f, d, e) ==> e !in {Unavailable, FixtureReadTruncated}
  {
  }

  lemma VariantChecks(f: Fixture, d: Database, products: set<Id>)
    requires |products| == |f.expectedProducts|
    ensures |VariantsOf(d, products)| == |f.expectedProducts| && VariantMap(d, products).Values == products <==>
      OneToOne(VariantMap(d, products), products)
  {
    OneToOneByCount(VariantMap(d, products), products);
    assert VariantMap(d, products).Keys == VariantsOf(d, products);
  }

  /** The comparisons themselves. */
  method Compare(f: Fixture, d: Database, categoryIds: seq<Id>, productIds: seq<Id>) returns (r: Result<(), Failure>)
    requires Elements(productIds) == ScopeProducts(f, d).Keys && |productIds| == |ScopeProducts(f, d).Keys|
    requires |categoryIds| == |ScopeCategories(f, d).Keys|
    ensures r.Ok? <==> Compares(f, ScopeCategories(f, d), ScopeProducts(f, d))
    ensures r.Ok? ==> |ScopeProducts(f, d).Keys| == |f.expectedProducts|
    ensures r.Err? ==> FailureFits(f, d, r.error)
  {
    hide OneToOne, Injective, IsActual, ProductPathsMatch, PathOf, Elements;
    var rows, products := ScopeCategories(f, d), ScopeProducts(f, d);
    if !LineageAccepts(rows) { return Err(CategoryLineageInvalid); }
    var paths := PathMap(rows);
    OneToOneByCount(paths, f.expectedPaths);
    assert paths.Keys == rows.Keys;
    if !(|categoryIds| == |f.expectedPaths| && paths.Values == f.expectedPaths) { return Err(CategoryPathsDiffer); }
    var actual := ActualPaths(rows, products, productIds);
    ProductChecks(f, rows, products, actual);
    if !(|productIds| == |f.expectedProducts| && actual == Wrapped(f.expectedProducts)) {
      return Err(ProductPathsDiffer);
    }
    return Ok(());
  }

  lemma ActualIsFunctional(rows: Rows, products: map<Id, Product>, actual: map<string, Option<Path>>)
    requires IsActual(rows, products, actual) && Injective(ReferenceMap(products))
    ensures forall id :: id in products ==>
      products[id].reference in actual && actual[products[id].reference] == ProductPath(rows, products[id])
  {
    var refs := ReferenceMap(products);
    forall id | id in products
      ensures products[id].reference in actual && actual[products[id].reference] == ProductPath(rows, products[id])
    {
      assert refs[id] in refs.Values;
      var other :| other in products && products[other].reference == products[id].reference
                   && ProductPath(rows, products[other]) == actual[products[id].reference];
      assert refs[other] == refs[id];
    }
  }

  /** The failures after which nothing has been sent to the database. */
  const CHECK_ONLY: set<Failure> := {CategoryLineageInvalid, CategoryPathsDiffer, ProductPathsDiffer,
    ProductVariantsDiffer, OwnershipMismatch, ForeignDependent, ExternalIdMismatch}

  const CHECK_FAILURES: set<Failure> := {Unavailable, FixtureReadTruncated, CategoryLineageInvalid, CategoryPathsDiffer,
    ProductPathsDiffer, ProductVariantsDiffer, OwnershipMismatch, ForeignDependent, ExternalIdMismatch}

  function LinkedProducts(d: Database, categories: set<Id>): set<Id> {
    set p | p in d.products && d.products[p].category.Some? && d.products[p].category.value in categories
  }

  function ChildCategories(d: Database, categories: set<Id>): set<Id> {
    set c | c in d.categories && d.categories[c].parent.Some? && d.categories[c].parent.value in categories
  }

  predicate NamesKnown(d: Database, bindings: set<Id>, externalIds: set<ExternalId>)
    requires bindings <= d.bindings.Keys
  {
    forall b :: b in bindings ==> d.bindings[b].externalId in externalIds
  }

  /** The bindings whose module is some owned module and whose name is some owned name. */
  function NamedBindings(d: Database, externalIds: set<ExternalId>): set<Id> {
    var modules, names := set e | e in externalIds :: e.0, set e | e in externalIds :: e.1;
    set b | b in d.bindings && d.bindings[b].externalId.0 in modules && d.bindings[b].externalId.1 in names
  }

  lemma EmptyListing<T>(rows: seq<Id>, matching: map<Id, T>)
    requires Elements(rows) == matching.Keys
    ensures rows == [] <==> matching == map[]
  {
    assert rows != [] ==> rows[0] in Elements(rows);
    assert matching == map[] <==> matching.Keys == {};
  }
}
