/** The disposable database as a value, and what one unlink call removes from it. */
module Store {
  import opened Wrappers
  import opened Lineage

  datatype Model = CategoryModel | ProductModel

  /** `category` is `categ_id` after `relation_id`. */
  datatype Product = Product(reference: string, category: Option<Id>)

  type ExternalId = (string, string)

  /** A row of `ir.model.data`: an external name bound to one record. */
  datatype Binding = Binding(externalId: ExternalId, model: Model, resource: Id)

  /** Categories, products (`product.template`), variants (`product.product`, with their
      template) and external bindings. */
  datatype Database = Database(
    categories: Rows,
    products: map<Id, Product>,
    variants: map<Id, Id>,
    bindings: map<Id, Binding>)

  function RecordIds(d: Database, model: Model): set<Id> {
    match model
    case CategoryModel => d.categories.Keys
    case ProductModel => d.products.Keys
  }

  /** No reference dangles: parents, product categories, variant templates, bindings. */
  predicate Integrity(d: Database) {
    && (forall id :: id in d.categories && d.categories[id].parent.Some? ==>
          d.categories[id].parent.value in d.categories)
    && (forall id :: id in d.products && d.products[id].category.Some? ==>
          d.products[id].category.value in d.categories)
    && (forall id :: id in d.variants ==> d.variants[id] in d.products)
    && (forall b :: b in d.bindings ==> d.bindings[b].resource in RecordIds(d, d.bindings[b].model))
  }

  function Attached(d: Database, model: Model, ids: set<Id>): set<Id> {
    set b | b in d.bindings && d.bindings[b].model == model && d.bindings[b].resource in ids
  }

  function VariantsOf(d: Database, products: set<Id>): set<Id> {
    set v | v in d.variants && d.variants[v] in products
  }

  /** Unlinking products takes their variants along, and any record its bindings. */
  function UnlinkProducts(d: Database, ids: set<Id>): Database {
    d.(products := d.products - ids,
       variants := d.variants - VariantsOf(d, ids),
       bindings := d.bindings - Attached(d, ProductModel, ids))
  }

  function UnlinkCategories(d: Database, ids: set<Id>): Database {
    d.(categories := d.categories - ids, bindings := d.bindings - Attached(d, CategoryModel, ids))
  }

  function UnlinkBindings(d: Database, ids: set<Id>): Database {
    d.(bindings := d.bindings - ids)
  }

  // ---------- What a run may touch ----------

  predicate SubMap<K(==), V(==)>(m: map<K, V>, n: map<K, V>) {
    m.Keys <= n.Keys && forall k :: k in m ==> m[k] == n[k]
  }

  /** Compared with `before`, `after` lacks at most the given categories and products, the
      variants of those products and the bindings of those records; nothing else differs. */
  ghost predicate OnlyOwnedRemoved(before: Database, categories: set<Id>, products: set<Id>, after: Database) {
    && SubMap(after.categories, before.categories) && before.categories.Keys - categories <= after.categories.Keys
    && SubMap(after.products, before.products) && before.products.Keys - products <= after.products.Keys
    && SubMap(after.variants, before.variants)
    && before.variants.Keys - VariantsOf(before, products) <= after.variants.Keys
    && SubMap(after.bindings, before.bindings)
    && before.bindings.Keys - Attached(before, CategoryModel, categories) - Attached(before, ProductModel, products)
       <= after.bindings.Keys
  }

  /** Every owned record gone, and nothing else. */
  ghost function WithoutOwned(d: Database, categories: set<Id>, products: set<Id>): Database {
    Database(d.categories - categories,
             d.products - products,
             d.variants - VariantsOf(d, products),
             d.bindings - Attached(d, CategoryModel, categories) - Attached(d, ProductModel, products))
  }

  // ---------- The states an accepted cleanup passes through ----------

  /** The bindings `explicit` and all owned products are gone, and of the owned categories
      those in `left` remain. */
  ghost function Stage(d: Database, categories: set<Id>, products: set<Id>, explicit: set<Id>,
                       left: set<Id>): Database {
    Database(d.categories - (categories - left),
             d.products - products,
             d.variants - VariantsOf(d, products),
             d.bindings - explicit - Attached(d, ProductModel, products)
               - Attached(d, CategoryModel, categories - left))
  }

  /** What the checks before the first unlink establish. */
  ghost predicate NoForeignDependents(d: Database, categories: set<Id>, products: set<Id>) {
    && (forall p :: p in d.products && d.products[p].category.Some? && d.products[p].category.value in categories
          ==> p in products)
    && (forall c :: c in d.categories && d.categories[c].parent.Some? && d.categories[c].parent.value in categories
          ==> c in categories)
  }

  ghost predicate Safe(before: Database, categories: set<Id>, products: set<Id>, after: Database) {
    Integrity(after) && OnlyOwnedRemoved(before, categories, products, after)
  }

  /** A set of remaining owned categories that contains every parent of its members leaves
      no dangling reference anywhere in the database. */
  lemma StageSafe(d: Database, categories: set<Id>, products: set<Id>, explicit: set<Id>, left: set<Id>)
    requires Integrity(d) && NoForeignDependents(d, categories, products)
    requires left <= categories <= d.categories.Keys
    requires forall c :: c in left && d.categories[c].parent.Some? && d.categories[c].parent.value in categories
               ==> d.categories[c].parent.value in left
    requires explicit <= Attached(d, CategoryModel, categories) + Attached(d, ProductModel, products)
    ensures Safe(d, categories, products, Stage(d, categories, products, explicit, left))
  {
  }

  lemma LastStage(d: Database, categories: set<Id>, products: set<Id>, explicit: set<Id>)
    requires explicit <= Attached(d, CategoryModel, categories) + Attached(d, ProductModel, products)
    ensures Stage(d, categories, products, explicit, {}) == WithoutOwned(d, categories, products)
  {
    var s := Stage(d, categories, products, explicit, {});
    assert categories - {} == categories;
    assert s.bindings == WithoutOwned(d, categories, products).bindings;
  }

  lemma NextStage(d: Database, categories: set<Id>, products: set<Id>, explicit: set<Id>, left: set<Id>,
                  leaves: set<Id>)
    requires leaves <= left <= categories
    ensures UnlinkCategories(Stage(d, categories, products, explicit, left), leaves)
         == Stage(d, categories, products, explicit, left - leaves)
  {
    var s := UnlinkCategories(Stage(d, categories, products, explicit, left), leaves);
    var t := Stage(d, categories, products, explicit, left - leaves);
    assert s.categories == t.categories;
    assert s.bindings.Keys == t.bindings.Keys;
    assert s.bindings == t.bindings;
  }

  /** In a forest, the categories with a descent of `k` steps contain every parent of theirs. */
  lemma UpperPartClosed(rows: Rows, k: nat)
    requires ParentsPresent(rows)
    ensures forall c :: c in AtLeast(rows, k) && rows[c].parent.Some? ==> rows[c].parent.value in AtLeast(rows, k)
  {
    forall c | c in AtLeast(rows, k) && rows[c].parent.Some? ensures rows[c].parent.value in AtLeast(rows, k) {
      DescentFromChild(rows, rows[c].parent.value, c, k);
      DescentShorter(rows, rows[c].parent.value, k);
    }
  }
}
