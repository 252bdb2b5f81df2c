/** What a qualification run may add to the database, and that removing what it owns gives
    the database back as it was found. */
module Conservation {
  import opened Orders
  import opened Lineage
  import opened Seeding
  import opened Store
  import opened TargetChecks
  import opened FixtureTarget

  /** `after` is `before` and fixture records: categories and products in scope, variants of
      added products, bindings of added records. Nothing that was there has changed. */
  predicate AddsFixture(f: Fixture, before: Database, after: Database) {
    && SubMap(before.categories, after.categories) && SubMap(before.products, after.products)
    && SubMap(before.variants, after.variants) && SubMap(before.bindings, after.bindings)
    && (forall c :: c in after.categories && c !in before.categories ==> after.categories[c].name in f.categoryNames)
    && (forall p :: p in after.products && p !in before.products ==> after.products[p].reference in f.references)
    && (forall v :: v in after.variants && v !in before.variants ==>
          after.variants[v] in after.products && after.variants[v] !in before.products)
    && (forall b :: b in after.bindings && b !in before.bindings ==>
          var binding := after.bindings[b];
          binding.resource in RecordIds(after, binding.model) && binding.resource !in RecordIds(before, binding.model))
  }

  /** The names seeded are names the scope covers. */
  ghost predicate FixtureCovers(f: Fixture) {
    SeedNames(Elements(f.existing)) <= f.categoryNames
  }

  lemma AddsNothing(f: Fixture, d: Database)
    ensures AddsFixture(f, d, d)
  {
  }

  /** A load may add any category with a fixture name and any product with a fixture reference. */
  lemma AnyFixtureRecordFits(f: Fixture, d: Database, id: Id, category: Category, product: Product)
    ensures id !in d.categories ==>
      (AddsFixture(f, d, d.(categories := d.categories[id := category])) <==> category.name in f.categoryNames)
    ensures id !in d.products ==>
      (AddsFixture(f, d, d.(products := d.products[id := product])) <==> product.reference in f.references)
  {
    if id !in d.categories {
      var after := d.(categories := d.categories[id := category]);
      assert after.categories[id] == category;
    }
    if id !in d.products {
      var after := d.(products := d.products[id := product]);
      assert after.products[id] == product;
    }
  }

  lemma AddsTransitive(f: Fixture, a: Database, b: Database, c: Database)
    requires AddsFixture(f, a, b) && AddsFixture(f, b, c)
    ensures AddsFixture(f, a, c)
  {
  }

  lemma SeedAdds(f: Fixture, before: Database, after: Database)
    requires FixtureCovers(f) && OnlySeeds(f.existing, before, after)
    ensures AddsFixture(f, before, after)
  {
  }

  /** An empty scope means that nothing has been added. */
  lemma EmptyScopeIsInitial(f: Fixture, initial: Database, d: Database)
    requires AddsFixture(f, initial, d) && ScopeEmpty(f, d)
    ensures d == initial
  {
    forall c | c in d.categories ensures c in initial.categories { assert c !in ScopeCategories(f, d); }
    forall p | p in d.products ensures p in initial.products { assert p !in ScopeProducts(f, d); }
    assert d.categories == initial.categories;
    assert d.products == initial.products;
    assert d.variants == initial.variants;
    assert d.bindings == initial.bindings;
  }

  /** With the scope empty at the start, the records in scope are exactly the added ones. */
  lemma ScopeIsAdded(f: Fixture, initial: Database, d: Database)
    requires AddsFixture(f, initial, d) && ScopeEmpty(f, initial)
    ensures ScopeCategories(f, d).Keys == d.categories.Keys - initial.categories.Keys
    ensures ScopeProducts(f, d).Keys == d.products.Keys - initial.products.Keys
  {
    assert forall c :: c in initial.categories ==> c !in ScopeCategories(f, initial);
    assert forall p :: p in initial.products ==> p !in ScopeProducts(f, initial);
  }

  /** Removing the records in scope restores the database exactly. */
  lemma RemovalRestores(f: Fixture, initial: Database, d: Database)
    requires AddsFixture(f, initial, d) && ScopeEmpty(f, initial) && Integrity(initial)
    ensures WithoutOwned(d, ScopeCategories(f, d).Keys, ScopeProducts(f, d).Keys) == initial
  {
    ScopeIsAdded(f, initial, d);
    hide ScopeCategories, ScopeProducts, ScopeEmpty;
    AddedRemoved(f, initial, d, ScopeCategories(f, d).Keys, ScopeProducts(f, d).Keys);
  }

  lemma AddedRemoved(f: Fixture, initial: Database, d: Database, categories: set<Id>, products: set<Id>)
    requires AddsFixture(f, initial, d) && Integrity(initial)
    requires categories == d.categories.Keys - initial.categories.Keys
    requires products == d.products.Keys - initial.products.Keys
    ensures WithoutOwned(d, categories, products) == initial
  {
    var r := WithoutOwned(d, categories, products);
    assert r.categories == initial.categories;
    assert r.products == initial.products;
    VariantsRestored(f, initial, d, products);
    BindingsRestored(f, initial, d, categories, products);
  }

  lemma VariantsRestored(f: Fixture, initial: Database, d: Database, products: set<Id>)
    requires AddsFixture(f, initial, d) && Integrity(initial)
    requires products == d.products.Keys - initial.products.Keys
    ensures d.variants - VariantsOf(d, products) == initial.variants
  {
    assert (d.variants - VariantsOf(d, products)).Keys == initial.variants.Keys;
  }

  lemma BindingsRestored(f: Fixture, initial: Database, d: Database, categories: set<Id>, products: set<Id>)
    requires AddsFixture(f, initial, d) && Integrity(initial)
    requires categories == d.categories.Keys - initial.categories.Keys
    requires products == d.products.Keys - initial.products.Keys
    ensures d.bindings - Attached(d, CategoryModel, categories) - Attached(d, ProductModel, products) ==
      initial.bindings
  {
    var left := d.bindings - Attached(d, CategoryModel, categories) - Attached(d, ProductModel, products);
    forall b ensures b in left <==> b in initial.bindings {
      if b in initial.bindings { assert initial.bindings[b].resource in RecordIds(initial, initial.bindings[b].model); }
    }
    assert left.Keys == initial.bindings.Keys;
  }

  /** A cleanup that stopped half way still leaves the initial records and fixture records only. */
  lemma PartialRemovalAdds(f: Fixture, initial: Database, before: Database, after: Database)
    requires AddsFixture(f, initial, before) && ScopeEmpty(f, initial) && Integrity(initial) && Integrity(after)
    requires OnlyOwnedRemoved(before, ScopeCategories(f, before).Keys, ScopeProducts(f, before).Keys, after)
    ensures AddsFixture(f, initial, after)
  {
    ScopeIsAdded(f, initial, before);
    hide ScopeCategories, ScopeProducts, ScopeEmpty;
    PartialAdds(f, initial, before, after, ScopeCategories(f, before).Keys, ScopeProducts(f, before).Keys);
  }

  lemma PartialAdds(f: Fixture, initial: Database, before: Database, after: Database, categories: set<Id>,
                    products: set<Id>)
    requires AddsFixture(f, initial, before) && Integrity(initial) && Integrity(after)
    requires categories == before.categories.Keys - initial.categories.Keys
    requires products == before.products.Keys - initial.products.Keys
    requires OnlyOwnedRemoved(before, categories, products, after)
    ensures AddsFixture(f, initial, after)
  {
    PartialVariants(initial, before, after, products);
    PartialBindings(initial, before, after, categories, products);
    hide VariantsOf, Attached;
    assert forall c :: c in initial.categories ==> c in after.categories;
    assert forall p :: p in initial.products ==> p in after.products;
  }

  lemma PartialVariants(initial: Database, before: Database, after: Database, products: set<Id>)
    requires SubMap(initial.variants, before.variants) && SubMap(after.variants, before.variants) && Integrity(initial)
    requires products !! initial.products.Keys
    requires before.variants.Keys - VariantsOf(before, products) <= after.variants.Keys
    ensures SubMap(initial.variants, after.variants)
  {
    forall v | v in initial.variants ensures v in after.variants {
      assert initial.variants[v] in initial.products;
    }
  }

  lemma PartialBindings(initial: Database, before: Database, after: Database, categories: set<Id>, products: set<Id>)
    requires SubMap(initial.bindings, before.bindings) && SubMap(after.bindings, before.bindings) && Integrity(initial)
    requires products !! initial.products.Keys && categories !! initial.categories.Keys
    requires
      before.bindings.Keys - Attached(before, CategoryModel, categories) - Attached(before, ProductModel, products)
      <= after.bindings.Keys
    ensures SubMap(initial.bindings, after.bindings)
  {
    forall b | b in initial.bindings ensures b in after.bindings {
      assert initial.bindings[b].resource in RecordIds(initial, initial.bindings[b].model);
    }
  }
}
