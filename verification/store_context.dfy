/** The store state manager (src/contexts/StoreContext.tsx): three state
    cells (the products, the categories and the store configuration), each
    loaded from its own storage key with a fallback to the seed data, each
    written back to its key whenever it changes, and seven operations that
    replace a cell.

    Browser storage is a map from key to what the key holds; serialisation
    is left out, so a stored value is either the empty string, the value of
    one of the three shapes, or text that does not parse. The clock that makes new
    ids is a parameter of the add operations. */
module StoreContext {
  import opened Wrappers
  import opened Types
  import Collections
  import MockData

  const ProductsKey := "store-products"
  const CategoriesKey := "store-categories"
  const ConfigKey := "store-config"

  /** What a storage key holds. */
  datatype Stored =
    | EmptyText
    | ProductsJson(products: seq<Product>)
    | CategoriesJson(categories: seq<Category>)
    | ConfigJson(store: Store)
    | MalformedText

  /** Loading a key failed: its text does not parse as the cell's value. */
  datatype LoadError = Unreadable(key: string)

  /** The products cell's initial value: the stored list, or the seed list
      when the key is absent or holds the empty string (the only falsy
      string; whitespace-only text is parsed and fails). */
  function LoadProducts(saved: map<string, Stored>): (r: Result<seq<Product>, LoadError>)
    ensures r.Failure? ==> r.error == Unreadable(ProductsKey)
    ensures ProductsKey !in saved || saved[ProductsKey] == EmptyText ==> r == Success(MockData.SeedProducts)
    ensures r.Success? ==> ProductsKey !in saved || saved[ProductsKey] == EmptyText || saved[ProductsKey] == ProductsJson(r.value)
  {
    if ProductsKey !in saved || saved[ProductsKey] == EmptyText then Success(MockData.SeedProducts)
    else if saved[ProductsKey].ProductsJson? then Success(saved[ProductsKey].products)
    else Failure(Unreadable(ProductsKey))
  }

  /** The categories cell's initial value. */
  function LoadCategories(saved: map<string, Stored>): (r: Result<seq<Category>, LoadError>)
    ensures r.Failure? ==> r.error == Unreadable(CategoriesKey)
    ensures CategoriesKey !in saved || saved[CategoriesKey] == EmptyText ==> r == Success(MockData.SeedCategories)
    ensures r.Success? ==> CategoriesKey !in saved || saved[CategoriesKey] == EmptyText || saved[CategoriesKey] == CategoriesJson(r.value)
  {
    if CategoriesKey !in saved || saved[CategoriesKey] == EmptyText then Success(MockData.SeedCategories)
    else if saved[CategoriesKey].CategoriesJson? then Success(saved[CategoriesKey].categories)
    else Failure(Unreadable(CategoriesKey))
  }

  /** The store cell's initial value. */
  function LoadConfig(saved: map<string, Stored>): (r: Result<Store, LoadError>)
    ensures r.Failure? ==> r.error == Unreadable(ConfigKey)
    ensures ConfigKey !in saved || saved[ConfigKey] == EmptyText ==> r == Success(MockData.SeedStore)
    ensures r.Success? ==> ConfigKey !in saved || saved[ConfigKey] == EmptyText || saved[ConfigKey] == ConfigJson(r.value)
  {
    if ConfigKey !in saved || saved[ConfigKey] == EmptyText then Success(MockData.SeedStore)
    else if saved[ConfigKey].ConfigJson? then Success(saved[ConfigKey].store)
    else Failure(Unreadable(ConfigKey))
  }

  /** The error of the first cell, in the order products, categories,
      store, whose load fails. */
  function FirstLoadError(saved: map<string, Stored>): LoadError
    requires LoadProducts(saved).Failure? || LoadCategories(saved).Failure? || LoadConfig(saved).Failure?
  {
    if LoadProducts(saved).Failure? then LoadProducts(saved).error
    else if LoadCategories(saved).Failure? then LoadCategories(saved).error
    else LoadConfig(saved).error
  }

  /** Storage after the three cells are written back. */
  function Saved(saved: map<string, Stored>, ps: seq<Product>, cs: seq<Category>, st: Store): map<string, Stored>
  {
    saved[ProductsKey := ProductsJson(ps)][CategoriesKey := CategoriesJson(cs)][ConfigKey := ConfigJson(st)]
  }

  /** What is written back loads again as it was, for each cell. */
  lemma LoadAfterSave(saved: map<string, Stored>, ps: seq<Product>, cs: seq<Category>, st: Store)
    ensures LoadProducts(Saved(saved, ps, cs, st)) == Success(ps)
    ensures LoadCategories(Saved(saved, ps, cs, st)) == Success(cs)
    ensures LoadConfig(Saved(saved, ps, cs, st)) == Success(st)
  {
  }

  /** Each cell loads from its own key only: whatever another key holds,
      including nothing, does not change it. */
  lemma LoadIsPerKey(saved: map<string, Stored>, key: string, v: Stored)
    ensures key != ProductsKey ==> LoadProducts(saved[key := v]) == LoadProducts(saved)
    ensures key != CategoriesKey ==> LoadCategories(saved[key := v]) == LoadCategories(saved)
    ensures key != ConfigKey ==> LoadConfig(saved[key := v]) == LoadConfig(saved)
  {
  }

  /** An absent key or one holding the empty string gives the seed value;
      text that does not parse fails the load instead of falling back. */
  lemma LoadFallback(saved: map<string, Stored>)
    ensures ProductsKey !in saved || saved[ProductsKey] == EmptyText ==> LoadProducts(saved) == Success(MockData.SeedProducts)
    ensures CategoriesKey !in saved || saved[CategoriesKey] == EmptyText ==> LoadCategories(saved) == Success(MockData.SeedCategories)
    ensures ConfigKey !in saved || saved[ConfigKey] == EmptyText ==> LoadConfig(saved) == Success(MockData.SeedStore)
    ensures ProductsKey in saved && saved[ProductsKey] == MalformedText ==> LoadProducts(saved).Failure?
    ensures CategoriesKey in saved && saved[CategoriesKey] == MalformedText ==> LoadCategories(saved).Failure?
    ensures ConfigKey in saved && saved[ConfigKey] == MalformedText ==> LoadConfig(saved).Failure?
  {
  }

  function ProductId(p: Product): string { p.id }

  function CategoryId(c: Category): string { c.id }

  /** `prev.map(p => p.id === id ? { ...p, ...patch } : p)`. */
  function UpdatedProducts(ps: seq<Product>, id: string, patch: ProductPatch): seq<Product>
  {
    Collections.UpdateWhere(ps, ProductId, id, (p: Product) => MergeProduct(p, patch))
  }

  /** `prev.filter(p => p.id !== id)`. */
  function DeletedProducts(ps: seq<Product>, id: string): seq<Product>
  {
    Collections.WithoutId(ps, ProductId, id)
  }

  /** `prev.map(c => c.id === id ? { ...c, ...patch } : c)`. */
  function UpdatedCategories(cs: seq<Category>, id: string, patch: CategoryPatch): seq<Category>
  {
    Collections.UpdateWhere(cs, CategoryId, id, (c: Category) => MergeCategory(c, patch))
  }

  /** `prev.filter(c => c.id !== id)`. */
  function DeletedCategories(cs: seq<Category>, id: string): seq<Category>
  {
    Collections.WithoutId(cs, CategoryId, id)
  }

  /** Updating a product replaces each product with the id by the product
      overlaid with the patch, and leaves every other product, the length
      and the order as they were. */
  lemma UpdatedProductsAt(ps: seq<Product>, id: string, patch: ProductPatch, i: int)
    requires 0 <= i < |ps|
    ensures |UpdatedProducts(ps, id, patch)| == |ps|
    ensures UpdatedProducts(ps, id, patch)[i] == if ps[i].id == id then MergeProduct(ps[i], patch) else ps[i]
  {
  }

  /** Updating an id no product has changes nothing; updating twice with
      the same patch equals updating once. */
  lemma UpdateProductLaws(ps: seq<Product>, id: string, patch: ProductPatch)
    ensures (forall p :: p in ps ==> p.id != id) ==> UpdatedProducts(ps, id, patch) == ps
    ensures UpdatedProducts(UpdatedProducts(ps, id, patch), id, patch) == UpdatedProducts(ps, id, patch)
  {
    var f := (p: Product) => MergeProduct(p, patch);
    if forall p :: p in ps ==> p.id != id {
      Collections.UpdateAbsentId(ps, ProductId, id, f);
    }
    forall p ensures f(f(p)) == f(p) {
      MergeProductLaws(p, patch, patch);
    }
    Collections.UpdateTwice(ps, ProductId, id, f);
  }

  /** Deleting a product removes every product with the id and keeps every
      other one in order; deleting twice equals deleting once; deleting an
      id no product has changes nothing. */
  lemma DeleteProductLaws(ps: seq<Product>, id: string)
    ensures Collections.IsSubsequence(DeletedProducts(ps, id), ps)
    ensures forall p :: p in DeletedProducts(ps, id) <==> p in ps && p.id != id
    ensures DeletedProducts(DeletedProducts(ps, id), id) == DeletedProducts(ps, id)
    ensures (forall p :: p in ps ==> p.id != id) ==> DeletedProducts(ps, id) == ps
  {
    Collections.WithoutIdSpec(ps, ProductId, id);
    Collections.WithoutIdTwice(ps, ProductId, id);
    if forall p :: p in ps ==> p.id != id {
      Collections.WithoutAbsentId(ps, ProductId, id);
    }
  }

  /** Adding a product under an id no product has, then deleting that id,
      gives back the list as it was. */
  lemma AddThenDeleteProduct(ps: seq<Product>, d: ProductDraft, id: string)
    requires forall p :: p in ps ==> p.id != id
    ensures DeletedProducts(ps + [WithId(d, id)], id) == ps
  {
    Collections.AppendThenRemove(ps, WithId(d, id), ProductId);
  }

  /** Adding does not look at the ids already there: under an id some
      product has, the list grows by one and two products share the id. */
  lemma AddKeepsDuplicateId(ps: seq<Product>, d: ProductDraft, id: string, k: int)
    requires 0 <= k < |ps| && ps[k].id == id
    ensures |ps + [WithId(d, id)]| == |ps| + 1
    ensures (ps + [WithId(d, id)])[k].id == (ps + [WithId(d, id)])[|ps|].id == id
  {
  }

  /** Updating a category overlays the patch on each category with the id
      and leaves every other category, the length and the order as they
      were. */
  lemma UpdatedCategoriesAt(cs: seq<Category>, id: string, patch: CategoryPatch, i: int)
    requires 0 <= i < |cs|
    ensures |UpdatedCategories(cs, id, patch)| == |cs|
    ensures UpdatedCategories(cs, id, patch)[i] == if cs[i].id == id then MergeCategory(cs[i], patch) else cs[i]
  {
  }

  /** Updating an id no category has changes nothing; updating twice with
      the same patch equals updating once. */
  lemma UpdateCategoryLaws(cs: seq<Category>, id: string, patch: CategoryPatch)
    ensures (forall c :: c in cs ==> c.id != id) ==> UpdatedCategories(cs, id, patch) == cs
    ensures UpdatedCategories(UpdatedCategories(cs, id, patch), id, patch) == UpdatedCategories(cs, id, patch)
  {
    var f := (c: Category) => MergeCategory(c, patch);
    if forall c :: c in cs ==> c.id != id {
      Collections.UpdateAbsentId(cs, CategoryId, id, f);
    }
    Collections.UpdateTwice(cs, CategoryId, id, f);
  }

  /** Deleting a category removes every category with the id and keeps
      every other one in order; deleting twice equals deleting once. */
  lemma DeleteCategoryLaws(cs: seq<Category>, id: string)
    ensures Collections.IsSubsequence(DeletedCategories(cs, id), cs)
    ensures forall c :: c in DeletedCategories(cs, id) <==> c in cs && c.id != id
    ensures DeletedCategories(DeletedCategories(cs, id), id) == DeletedCategories(cs, id)
    ensures (forall c :: c in cs ==> c.id != id) ==> DeletedCategories(cs, id) == cs
  {
    Collections.WithoutIdSpec(cs, CategoryId, id);
    Collections.WithoutIdTwice(cs, CategoryId, id);
    if forall c :: c in cs ==> c.id != id {
      Collections.WithoutAbsentId(cs, CategoryId, id);
    }
  }

  /** Adding a category under a fresh id, then deleting that id, gives back
      the list as it was. */
  lemma AddThenDeleteCategory(cs: seq<Category>, d: CategoryDraft, id: string)
    requires forall c :: c in cs ==> c.id != id
    ensures DeletedCategories(cs + [CategoryWithId(d, id)], id) == cs
  {
    Collections.AppendThenRemove(cs, CategoryWithId(d, id), CategoryId);
  }

  /** The provider's state: the three cells and the storage they are
      written back to. */
  class StoreManager {
    var products: seq<Product>
    var categories: seq<Category>
    var store: Store
    var storage: map<string, Stored>

    /** Every cell has been written back to its key. */
    ghost predicate Valid()
      reads this
    {
      && ProductsKey in storage && storage[ProductsKey] == ProductsJson(products)
      && CategoriesKey in storage && storage[CategoriesKey] == CategoriesJson(categories)
      && ConfigKey in storage && storage[ConfigKey] == ConfigJson(store)
    }

    /** The state once the cells hold `ps`, `cs` and `st` and the effects
        that run on mount have written them to `saved`. */
    constructor (saved: map<string, Stored>, ps: seq<Product>, cs: seq<Category>, st: Store)
      ensures Valid()
      ensures products == ps && categories == cs && store == st
      ensures storage == Saved(saved, ps, cs, st)
    {
      products, categories, store := ps, cs, st;
      storage := Saved(saved, ps, cs, st);
    }

    /** Mounting the provider: each cell is loaded from its key, in the
        order products, categories, store; the first key that does not
        parse fails the mount. */
    static method Open(saved: map<string, Stored>) returns (r: Result<StoreManager, LoadError>)
      ensures r.Success? <==> LoadProducts(saved).Success? && LoadCategories(saved).Success? && LoadConfig(saved).Success?
      ensures r.Failure? ==> r.error == FirstLoadError(saved)
      ensures r.Success? ==>
        && fresh(r.value) && r.value.Valid()
        && r.value.products == LoadProducts(saved).value
        && r.value.categories == LoadCategories(saved).value
        && r.value.store == LoadConfig(saved).value
        && r.value.storage == Saved(saved, r.value.products, r.value.categories, r.value.store)
    {
      var ps := LoadProducts(saved);
      if ps.Failure? {
        return Failure(ps.error);
      }
      var cs := LoadCategories(saved);
      if cs.Failure? {
        return Failure(cs.error);
      }
      var st := LoadConfig(saved);
      if st.Failure? {
        return Failure(st.error);
      }
      var m := new StoreManager(saved, ps.value, cs.value, st.value);
      return Success(m);
    }

    /** `addProduct`: append the draft under the id the clock gave. */
    method AddProduct(data: ProductDraft, newId: string)
      requires Valid()
      modifies this
      ensures Valid()
      ensures products == old(products) + [WithId(data, newId)]
      ensures categories == old(categories) && store == old(store)
      ensures storage == old(storage)[ProductsKey := ProductsJson(products)]
    {
      products := products + [WithId(data, newId)];
      storage := storage[ProductsKey := ProductsJson(products)];
    }

    /** `updateProduct`. */
    method UpdateProduct(id: string, patch: ProductPatch)
      requires Valid()
      modifies this
      ensures Valid()
      ensures products == UpdatedProducts(old(products), id, patch)
      ensures categories == old(categories) && store == old(store)
      ensures storage == old(storage)[ProductsKey := ProductsJson(products)]
    {
      products := UpdatedProducts(products, id, patch);
      storage := storage[ProductsKey := ProductsJson(products)];
    }

    /** `deleteProduct`. */
    method DeleteProduct(id: string)
      requires Valid()
      modifies this
      ensures Valid()
      ensures products == DeletedProducts(old(products), id)
      ensures forall p :: p in products ==> p.id != id
      ensures categories == old(categories) && store == old(store)
      ensures storage == old(storage)[ProductsKey := ProductsJson(products)]
    {
      products := DeletedProducts(products, id);
      DeleteProductLaws(old(products), id);
      storage := storage[ProductsKey := ProductsJson(products)];
    }

    /** `addCategory`: append the draft under the id the clock gave. */
    method AddCategory(data: CategoryDraft, newId: string)
      requires Valid()
      modifies this
      ensures Valid()
      ensures categories == old(categories) + [CategoryWithId(data, newId)]
      ensures products == old(products) && store == old(store)
      ensures storage == old(storage)[CategoriesKey := CategoriesJson(categories)]
    {
      categories := categories + [CategoryWithId(data, newId)];
      storage := storage[CategoriesKey := CategoriesJson(categories)];
    }

    /** `updateCategory`. */
    method UpdateCategory(id: string, patch: CategoryPatch)
      requires Valid()
      modifies this
      ensures Valid()
      ensures categories == UpdatedCategories(old(categories), id, patch)
      ensures products == old(products) && store == old(store)
      ensures storage == old(storage)[CategoriesKey := CategoriesJson(categories)]
    {
      categories := UpdatedCategories(categories, id, patch);
      storage := storage[CategoriesKey := CategoriesJson(categories)];
    }

    /** `deleteCategory`. */
    method DeleteCategory(id: string)
      requires Valid()
      modifies this
      ensures Valid()
      ensures categories == DeletedCategories(old(categories), id)
      ensures forall c :: c in categories ==> c.id != id
      ensures products == old(products) && store == old(store)
      ensures storage == old(storage)[CategoriesKey := CategoriesJson(categories)]
    {
      categories := DeletedCategories(categories, id);
      DeleteCategoryLaws(old(categories), id);
      storage := storage[CategoriesKey := CategoriesJson(categories)];
    }

    /** `updateStore`: overlay the patch on the configuration. */
    method UpdateStore(patch: StorePatch)
      requires Valid()
      modifies this
      ensures Valid()
      ensures store == MergeStore(old(store), patch)
      ensures products == old(products) && categories == old(categories)
      ensures storage == old(storage)[ConfigKey := ConfigJson(store)]
    {
      store := MergeStore(store, patch);
      storage := storage[ConfigKey := ConfigJson(store)];
    }
  }
}
