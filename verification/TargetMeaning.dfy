/** The conditions of the target's operations, said of the records themselves: parents and
    names instead of computed paths, and one record at a time instead of computed sets. */
module TargetMeaning {
  import opened Orders
  import opened Wrappers
  import opened Counting
  import opened Lineage
  import opened Seeding
  import opened Store
  import opened TargetChecks
  import opened CleanupSafety

  // ---------- Scope and paths ----------

  /** The category carries a fixture name. */
  ghost predicate Carries(f: Fixture, d: Database, c: Id) {
    c in d.categories && d.categories[c].name in f.categoryNames
  }

  /** The product carries a fixture reference. */
  ghost predicate Refers(f: Fixture, d: Database, p: Id) {
    p in d.products && d.products[p].reference in f.references
  }

  /** `chain` leads from a root down to its last category, through fixture categories only,
      and `path` lists their names. */
  ghost predicate Leads(f: Fixture, d: Database, chain: seq<Id>, path: Path) {
    && |chain| == |path| > 0
    && (forall i :: 0 <= i < |chain| ==> Carries(f, d, chain[i]) && d.categories[chain[i]].name == path[i])
    && d.categories[chain[0]].parent == None
    && (forall i :: 0 < i < |chain| ==> d.categories[chain[i]].parent == Some(chain[i - 1]))
  }

  ghost predicate HasPath(f: Fixture, d: Database, c: Id, path: Path) {
    exists chain :: Leads(f, d, chain, path) && chain[|chain| - 1] == c
  }

  /** The recursive lineage check computes exactly the names from the root down. */
  lemma PathIsChain(f: Fixture, d: Database, c: Id, path: Path)
    ensures PathOf(ScopeCategories(f, d), c, {}) == Some(path) <==> HasPath(f, d, c, path)
  {
    if PathOf(ScopeCategories(f, d), c, {}) == Some(path) { PathHasChain(f, d, c, {}, path); }
    if chain :| Leads(f, d, chain, path) && chain[|chain| - 1] == c { ChainHasPath(f, d, chain, path, {}); }
  }

  lemma {:induction false} PathHasChain(f: Fixture, d: Database, c: Id, seen: set<Id>, path: Path)
    requires PathOf(ScopeCategories(f, d), c, seen) == Some(path)
    ensures HasPath(f, d, c, path)
    decreases |ScopeCategories(f, d).Keys - seen|
  {
    var rows := ScopeCategories(f, d);
    if rows[c].parent.None? {
      assert Leads(f, d, [c], path);
    } else {
      var above := path[..|path| - 1];
      Fewer(rows.Keys - seen, c);
      assert rows.Keys - (seen + {c}) == rows.Keys - seen - {c};
      PathHasChain(f, d, rows[c].parent.value, seen + {c}, above);
      var chain :| Leads(f, d, chain, above) && chain[|chain| - 1] == rows[c].parent.value;
      assert Leads(f, d, chain + [c], path);
    }
  }

  lemma {:induction false} ChainHasPath(f: Fixture, d: Database, chain: seq<Id>, path: Path, seen: set<Id>)
    requires Leads(f, d, chain, path) && forall i :: 0 <= i < |chain| ==> chain[i] !in seen
    ensures PathOf(ScopeCategories(f, d), chain[|chain| - 1], seen) == Some(path)
    decreases |chain|
  {
    var rows, n := ScopeCategories(f, d), |chain| - 1;
    var c := chain[n];
    assert c in rows && rows[c].name == path[n] && path == path[..n] + [path[n]];
    if n > 0 {
      var above := chain[..n];
      forall i | 0 <= i < n ensures above[i] !in seen + {c} { ChainDistinct(f, d, chain, path, i, n); }
      assert Leads(f, d, above, path[..n]);
      ChainHasPath(f, d, above, path[..n], seen + {c});
      assert rows[c].parent == Some(above[n - 1]);
    }
  }

  lemma {:induction false} ChainDistinct(f: Fixture, d: Database, chain: seq<Id>, path: Path, i: nat, j: nat)
    requires Leads(f, d, chain, path) && i < j < |chain|
    ensures chain[i] != chain[j]
  {
    assert d.categories[chain[j]].parent == Some(chain[j - 1]);
    if i > 0 {
      assert d.categories[chain[i]].parent == Some(chain[i - 1]);
      ChainDistinct(f, d, chain, path, i - 1, j - 1);
    }
  }

  // ---------- `validate` and `verify_business` ----------

  lemma ScopeEmptyMeans(f: Fixture, d: Database)
    ensures ScopeEmpty(f, d) <==>
      && (forall c :: c in d.categories ==> d.categories[c].name !in f.categoryNames)
      && (forall p :: p in d.products ==> d.products[p].reference !in f.references)
  {
    assert forall c :: c in d.categories ==> (Carries(f, d, c) <==> d.categories[c].name in f.categoryNames);
    assert forall p :: p in d.products ==> (Refers(f, d, p) <==> d.products[p].reference in f.references);
    ScopeMeans(f, d);
    assert ScopeCategories(f, d) == map[] <==> ScopeCategories(f, d).Keys == {};
    assert ScopeProducts(f, d) == map[] <==> ScopeProducts(f, d).Keys == {};
  }

  lemma ScopeMeans(f: Fixture, d: Database)
    ensures forall c :: c in ScopeCategories(f, d) <==> Carries(f, d, c)
    ensures forall c :: c in ScopeCategories(f, d) ==> ScopeCategories(f, d)[c] == d.categories[c]
    ensures forall p :: p in ScopeProducts(f, d) <==> Refers(f, d, p)
    ensures forall p :: p in ScopeProducts(f, d) ==> ScopeProducts(f, d)[p] == d.products[p]
  {
  }

  /** Every fixture category has a path to a root. */
  ghost predicate Rooted(f: Fixture, d: Database) {
    forall c :: Carries(f, d, c) ==> exists path :: HasPath(f, d, c, path)
  }

  /** Every fixture category has an expected path, and every expected path exactly one category. */
  ghost predicate CategoriesMatch(f: Fixture, d: Database) {
    && (forall c :: Carries(f, d, c) ==> exists path :: path in f.expectedPaths && HasPath(f, d, c, path))
    && (forall path :: path in f.expectedPaths ==> exists c :: HasPath(f, d, c, path))
    && (forall c, e, path :: HasPath(f, d, c, path) && HasPath(f, d, e, path) ==> c == e)
  }

  /** Every expected reference has exactly one product, which stands in the category with the
      expected path; no other product carries a fixture reference. */
  ghost predicate ProductsMatch(f: Fixture, d: Database) {
    && (forall p :: Refers(f, d, p) ==>
          var product := d.products[p];
          && product.reference in f.expectedProducts
          && product.category.Some?
          && HasPath(f, d, product.category.value, f.expectedProducts[product.reference]))
    && (forall r :: r in f.expectedProducts ==> exists p :: Refers(f, d, p) && d.products[p].reference == r)
    && (forall p, q :: Refers(f, d, p) && Refers(f, d, q) && d.products[p].reference == d.products[q].reference
          ==> p == q)
  }

  /** Every fixture product has exactly one variant. */
  ghost predicate VariantsMatch(f: Fixture, d: Database) {
    && (forall p :: Refers(f, d, p) ==> exists v :: v in d.variants && d.variants[v] == p)
    && (forall v, w :: v in d.variants && w in d.variants && Refers(f, d, d.variants[v]) ==>
          (d.variants[v] == d.variants[w] ==> v == w))
  }

  /** The database that `verify_business` accepts. */
  lemma VerifiedMeans(f: Fixture, d: Database)
    ensures Verified(f, d) <==> CategoriesMatch(f, d) && ProductsMatch(f, d) && VariantsMatch(f, d)
    ensures FailureFits(f, d, CategoryLineageInvalid) <==> !Rooted(f, d)
    ensures FailureFits(f, d, CategoryPathsDiffer) <==> Rooted(f, d) && !CategoriesMatch(f, d)
    ensures Rooted(f, d) ==> (FailureFits(f, d, ProductPathsDiffer) <==> !ProductsMatch(f, d))
    ensures FailureFits(f, d, ProductVariantsDiffer) <==> !VariantsMatch(f, d)
  {
    CategoriesMean(f, d);
    ProductsMean(f, d);
    VariantsMean(f, d);
    hide Rooted, CategoriesMatch, ProductsMatch, VariantsMatch, OneToOne, ProductPathsMatch;
  }

  lemma RootedMeans(f: Fixture, d: Database)
    ensures LineageAccepts(ScopeCategories(f, d)) <==> Rooted(f, d)
  {
    var rows := ScopeCategories(f, d);
    ScopeMeans(f, d);
    forall c | Carries(f, d, c) ensures PathOf(rows, c, {}).Some? <==> exists path :: HasPath(f, d, c, path) {
      if PathOf(rows, c, {}).Some? { PathIsChain(f, d, c, PathOf(rows, c, {}).value); }
      if path :| HasPath(f, d, c, path) { PathIsChain(f, d, c, path); }
    }
  }

  lemma CategoriesMean(f: Fixture, d: Database)
    ensures LineageAccepts(ScopeCategories(f, d)) <==> Rooted(f, d)
    ensures LineageAccepts(ScopeCategories(f, d)) && OneToOne(PathMap(ScopeCategories(f, d)), f.expectedPaths) <==>
      CategoriesMatch(f, d)
  {
    var rows := ScopeCategories(f, d);
    RootedMeans(f, d);
    if Rooted(f, d) {
      var paths := PathMap(rows);
      ScopeMeans(f, d);
      forall c, path ensures c in paths && paths[c] == path <==> HasPath(f, d, c, path) { PathIsChain(f, d, c, path); }
      MatchMeans(f, d, paths);
    } else {
      hide HasPath;
      assert !CategoriesMatch(f, d);
    }
  }

  lemma MatchMeans(f: Fixture, d: Database, paths: map<Id, Path>)
    requires forall c :: c in paths <==> Carries(f, d, c)
    requires forall c, path :: c in paths && paths[c] == path <==> HasPath(f, d, c, path)
    ensures OneToOne(paths, f.expectedPaths) <==> CategoriesMatch(f, d)
  {
    hide HasPath, Carries;
    assert forall c :: c in paths ==> HasPath(f, d, c, paths[c]);
  }

  lemma ProductsMean(f: Fixture, d: Database)
    ensures
      OneToOne(ReferenceMap(ScopeProducts(f, d)), f.expectedProducts.Keys)
      && ProductPathsMatch(f, ScopeCategories(f, d), ScopeProducts(f, d)) <==>
      ProductsMatch(f, d)
  {
    var rows, products := ScopeCategories(f, d), ScopeProducts(f, d);
    var refs := ReferenceMap(products);
    ScopeMeans(f, d);
    assert refs.Keys == products.Keys && forall p :: p in refs ==> refs[p] == d.products[p].reference;
    forall p, path | p in products
      ensures ProductPath(rows, products[p]) == Some(path) <==>
        d.products[p].category.Some? && HasPath(f, d, d.products[p].category.value, path)
    {
      if d.products[p].category.Some? { PathIsChain(f, d, d.products[p].category.value, path); }
    }
    hide HasPath, ScopeCategories, ScopeProducts, Refers, ProductPath, ReferenceMap;
    ReferencesMean(f, d, refs);
  }

  lemma ReferencesMean(f: Fixture, d: Database, refs: map<Id, string>)
    requires forall p :: p in refs <==> Refers(f, d, p)
    requires forall p :: p in refs ==> p in d.products && refs[p] == d.products[p].reference
    ensures OneToOne(refs, f.expectedProducts.Keys) <==>
      && (forall p :: Refers(f, d, p) ==> d.products[p].reference in f.expectedProducts)
      && (forall r :: r in f.expectedProducts ==> exists p :: Refers(f, d, p) && d.products[p].reference == r)
      && (forall p, q :: Refers(f, d, p) && Refers(f, d, q) && d.products[p].reference == d.products[q].reference
            ==> p == q)
  {
  }

  lemma VariantsMean(f: Fixture, d: Database)
    ensures var products := ScopeProducts(f, d).Keys;
      OneToOne(VariantMap(d, products), products) <==> VariantsMatch(f, d)
  {
    var products := ScopeProducts(f, d).Keys;
    ScopeMeans(f, d);
    var variants := VariantMap(d, products);
    assert forall v :: v in variants <==> v in d.variants && Refers(f, d, d.variants[v]);
    assert forall v :: v in variants ==> variants[v] == d.variants[v];
  }

  // ---------- `cleanup` ----------

  /** The binding names an owned record. */
  ghost predicate OfOwned(claim: Claim, b: Binding) {
    || (b.model == CategoryModel && b.resource in claim.categories)
    || (b.model == ProductModel && b.resource in claim.products)
  }

  /** Its module is that of some owned name, and its name that of some owned name. */
  ghost predicate Selected(claim: Claim, b: Binding) {
    && (exists e :: e in claim.externalIds && e.0 == b.externalId.0)
    && (exists e :: e in claim.externalIds && e.1 == b.externalId.1)
  }

  /** The databases on which `cleanup` goes through: the fixture result stands, its records are
      exactly the owned ones, nothing else depends on them, they have owned names only, and
      remotely nothing else is selected by those names. */
  lemma AcceptableMeans(f: Fixture, remote: bool, claim: Claim, d: Database)
    ensures Acceptable(f, remote, claim, d) <==>
      && CategoriesMatch(f, d) && ProductsMatch(f, d) && VariantsMatch(f, d)
      && (forall c :: c in claim.categories <==> Carries(f, d, c))
      && (forall p :: p in claim.products <==> Refers(f, d, p))
      && (forall p, c :: p in d.products && c in claim.categories && d.products[p].category == Some(c)
            ==> p in claim.products)
      && (forall e, c :: e in d.categories && c in claim.categories && d.categories[e].parent == Some(c)
            ==> e in claim.categories)
      && (forall b :: b in d.bindings && OfOwned(claim, d.bindings[b]) ==>
            d.bindings[b].externalId in claim.externalIds)
      && (remote ==> forall b :: b in d.bindings && Selected(claim, d.bindings[b]) ==>
            d.bindings[b].externalId in claim.externalIds && OfOwned(claim, d.bindings[b]))
  {
    VerifiedMeans(f, d);
    ScopeMeans(f, d);
    BindingsMean(claim, d);
    hide Verified, CategoriesMatch, ProductsMatch, VariantsMatch, ScopeCategories, ScopeProducts, Carries, Refers,
      OfOwned, Selected, NamedBindings, AttachedToOwned, FailureFits;
  }

  lemma BindingsMean(claim: Claim, d: Database)
    ensures forall b :: b in AttachedToOwned(d, claim) <==> b in d.bindings && OfOwned(claim, d.bindings[b])
    ensures forall b :: b in NamedBindings(d, claim.externalIds) <==> b in d.bindings && Selected(claim, d.bindings[b])
  {
  }

  /** What `verify_business` reads: fewer than a hundred records of each kind. */
  lemma BusinessReadableMeans(f: Fixture, d: Database)
    ensures BusinessReadable(f, d) <==>
      && |set c | c in d.categories && d.categories[c].name in f.categoryNames| < 100
      && |set p | p in d.products && d.products[p].reference in f.references| < 100
      && |set v | v in d.variants && Refers(f, d, d.variants[v])| < 100
  {
    ScopeMeans(f, d);
    assert ScopeCategories(f, d).Keys == set c | c in d.categories && d.categories[c].name in f.categoryNames;
    assert ScopeProducts(f, d).Keys == set p | p in d.products && d.products[p].reference in f.references;
    assert VariantsOf(d, ScopeProducts(f, d).Keys) == set v | v in d.variants && Refers(f, d, d.variants[v]);
  }

  /** What `cleanup` reads besides, before it deletes. */
  lemma ReadableMeans(f: Fixture, remote: bool, claim: Claim, d: Database)
    ensures ChecksReadable(f, remote, claim, d) <==>
      && BusinessReadable(f, d)
      && |set p | p in d.products && d.products[p].category.Some? && d.products[p].category.value in claim.categories|
         < 100
      && |set c | c in d.categories && d.categories[c].parent.Some? && d.categories[c].parent.value in claim.categories|
         < 100
      && |set b | b in d.bindings && d.bindings[b].model == CategoryModel && d.bindings[b].resource in claim.categories|
         < 100
      && |set b | b in d.bindings && d.bindings[b].model == ProductModel && d.bindings[b].resource in claim.products|
         < 100
      && (remote ==> |set b | b in d.bindings && Selected(claim, d.bindings[b])| < 100)
  {
    hide BusinessReadable;
    BindingsMean(claim, d);
    hide Selected;
    assert NamedBindings(d, claim.externalIds) == set b | b in d.bindings && Selected(claim, d.bindings[b]);
    assert Explicit(remote, claim, d) == if remote then NamedBindings(d, claim.externalIds) else {};
    assert |Explicit(false, claim, d)| == 0;
    assert LinkedProducts(d, claim.categories) ==
      set p | p in d.products && d.products[p].category.Some? && d.products[p].category.value in claim.categories;
    assert ChildCategories(d, claim.categories) ==
      set c | c in d.categories && d.categories[c].parent.Some? && d.categories[c].parent.value in claim.categories;
    assert Attached(d, CategoryModel, claim.categories) ==
      set b | b in d.bindings && d.bindings[b].model == CategoryModel && d.bindings[b].resource in claim.categories;
    assert Attached(d, ProductModel, claim.products) ==
      set b | b in d.bindings && d.bindings[b].model == ProductModel && d.bindings[b].resource in claim.products;
  }

  /** What is left after a completed cleanup: the owned records, the variants of owned products
      and the bindings of owned records are gone, and all else is as it was. */
  lemma WithoutOwnedMeans(d: Database, claim: Claim)
    ensures var r := WithoutOwned(d, claim.categories, claim.products);
      && (forall c :: c in r.categories <==> c in d.categories && c !in claim.categories)
      && (forall p :: p in r.products <==> p in d.products && p !in claim.products)
      && (forall v :: v in r.variants <==> v in d.variants && d.variants[v] !in claim.products)
      && (forall b :: b in r.bindings <==> b in d.bindings && !OfOwned(claim, d.bindings[b]))
      && (forall c :: c in r.categories ==> r.categories[c] == d.categories[c])
      && (forall p :: p in r.products ==> r.products[p] == d.products[p])
      && (forall v :: v in r.variants ==> r.variants[v] == d.variants[v])
      && (forall b :: b in r.bindings ==> r.bindings[b] == d.bindings[b])
  {
  }

  /** What every state on the way of a cleanup still holds, unchanged. */
  lemma OnlyOwnedRemovedMeans(before: Database, claim: Claim, after: Database)
    requires OnlyOwnedRemoved(before, claim.categories, claim.products, after)
    ensures forall c :: c in after.categories ==> c in before.categories && after.categories[c] == before.categories[c]
    ensures forall c :: c in before.categories && c !in claim.categories ==> c in after.categories
    ensures forall p :: p in after.products ==> p in before.products && after.products[p] == before.products[p]
    ensures forall p :: p in before.products && p !in claim.products ==> p in after.products
    ensures forall v :: v in after.variants ==> v in before.variants && after.variants[v] == before.variants[v]
    ensures forall v :: v in before.variants && before.variants[v] !in claim.products ==> v in after.variants
    ensures forall b :: b in after.bindings ==> b in before.bindings && after.bindings[b] == before.bindings[b]
    ensures forall b :: b in before.bindings && !OfOwned(claim, before.bindings[b]) ==> b in after.bindings
  {
  }

  /** Referential integrity, reference by reference. */
  lemma IntegrityMeans(d: Database)
    ensures Integrity(d) <==>
      && (forall c, parent :: c in d.categories && d.categories[c].parent == Some(parent) ==> parent in d.categories)
      && (forall p, c :: p in d.products && d.products[p].category == Some(c) ==> c in d.categories)
      && (forall v :: v in d.variants ==> d.variants[v] in d.products)
      && (forall b :: b in d.bindings ==>
            if d.bindings[b].model == CategoryModel then d.bindings[b].resource in d.categories
            else d.bindings[b].resource in d.products)
  {
  }
}
